# Radio discovery and reconnection, modelled in Dafny

This project models the deterministic core of a small React Native
application that talks to Bluetooth Low Energy peripherals through the
`react-native-ble-plx` library. The model has two parts.

- **`Ble` (ble.dfy)**, for `ble.ts`.
  - `scanForDevices` folds the scan listener's `(error, device)` events
    into a list keyed by device id. Errors are skipped. An unseen id is
    pushed at the end. A seen id is overwritten at the index `findIndex`
    returns. The list then passes through `[...new Set(...)]`, and an
    exception from the adapter's start or stop call yields `[]`.
  - The model specifies this fold on values: `Upsert`, `Scanned` and
    `ScanResult`. It then proves the imperative listener (`FindIndex`,
    `HandleScanEvent`, `CollectDevices`) and the scan itself
    (`BleModule.ScanForDevices`) against that specification.
  - It proves the list's properties as lemmas: ids are unique, the list is
    in first-discovery order, it holds the latest record for each id,
    errors leave no trace, and the final Set pass is the identity.
  - `getServiceUuids` is modelled as a function.
  - `getServiceNames` is a loop (`GetServiceNames`) proved against a
    reference definition (`KnownServiceNames`). Lemmas fix what that
    definition means: exactly the table names of the known inputs, in
    input order.
  - `getBleManagerInstance` is a lazily created singleton held by
    `BleModule`.
- **`ConnectionManager` (connection_manager.dfy)**, for
  `BluetoothConnectionManager.ts`: the class `BluetoothConnectionManager`.
  - `armed` stands for `connectionInterval !== null`. `callbacks` is the
    reconnect registry.
  - A ghost `trace` records what the manager caused, in order: connect
    attempts, calls of the connected and disconnected observers, and each
    callback run with whether it threw.
  - Each outcome the manager cannot see is a parameter of the method that
    faces it: whether the connect succeeds (`Attempt`), whether
    `onDeviceConnected` throws, which callbacks throw, and what
    `isConnected` answers (`Probe`).
  - The methods are proved against `ConnectEvents` and `CallbackRuns`,
    whose properties are proved as lemmas. `StartStopScenario` and
    `TickScenario` are client methods that replay typical runs.

`wrappers.dfy` holds the `Option` type the other two use.

Some points of the source's behaviour that the model keeps:

- A repeated device keeps the index of its first discovery, so the list is
  in first-discovery order (ble.ts:56-63).
- The manager keeps no connection-state value. Its only state is the
  interval handle and the registry (BluetoothConnectionManager.ts:8-9).
- `connectToDevice` catches every error itself. So the `catch` around the
  initial connect in `startMonitoringConnection` (lines 41-43) never runs.
  A throwing `onDeviceConnected` lands in that same inner `catch`, which
  skips the reconnect callbacks. The model keeps this: `ConnectEvents`
  with `observerThrows`.
- The source spells each key of `BLE_SERVICE_NAMES` out in full.
  `ServiceNameTable` writes each key as `BaseUuid` of its 16-bit value.
  That is the same string: `0000xxxx-0000-1000-8000-00805f9b34fb`, the
  Bluetooth Base UUID form of section 2.5.1 of the Bluetooth Core
  Specification, Vol 3, Part B.
- The table gives "Environmental Sensing" for the 16-bit value `fe59`. The
  Bluetooth SIG assigned numbers give 0x181A to the Environmental Sensing
  service. The model keeps the source's table as it stands.

## Model

| member | source | states |
|---|---|---|
| `Ble.Distinct` | ble.ts:73 | The Set spread keeps one copy of each value of its input and no other. |
| `Ble.DistinctOfNoDupes` | ble.ts:73 | On a list without repeated values the Set spread is the identity. |
| `Ble.UniqueIdsNoDupes` | ble.ts:73 | A list whose ids are pairwise distinct has pairwise distinct entries. |
| `Ble.Upsert` | ble.ts:55-63 | One discovery puts the new record in the list, adds nothing else, and grows the list by at most one entry. |
| `Ble.UpsertUnseen` | ble.ts:56-59 | A device whose id no entry has is appended after every earlier entry. |
| `Ble.UpsertSeen` | ble.ts:60-63 | A device whose id first appears at index k replaces exactly that entry: same length, the new record at k, every other entry untouched. |
| `Ble.IdsUpsert` | ble.ts:55-63 | After one discovery the list's ids are unchanged for a seen id, and gain the new id at the end otherwise. |
| `Ble.EntryForUpsert` | ble.ts:60-63 | After one discovery, the entry for that id is the new record and the entry for every other id is what it was. |
| `Ble.Step` | ble.ts:48-64 | One listener call: the list keeps its entries or grows by one, and any new entry is the record the call delivered. |
| `Ble.Scanned` | ble.ts:48-64 | The listener's list after a stream of calls has no more entries than calls, and each entry is a record some call delivered. |
| `Ble.ScannedOrder` | ble.ts:48-64 | The list's ids are the delivered ids in delivery order, with every repeat after the first left out (first-discovery order). |
| `Ble.ScannedIdsUnique` | ble.ts:55-63 | After any event sequence no two entries share an id. |
| `Ble.ScannedHoldsLatest` | ble.ts:56-63 | For every id, the list's entry is the most recently delivered record with that id, and there is an entry exactly when some record with that id was delivered. |
| `Ble.ScanErrorsIgnored` | ble.ts:50-53 | Removing every error event from the stream does not change the list. |
| `Ble.OnlyErrorsScanNothing` | ble.ts:50-53 | A stream of errors only yields the empty list. |
| `Ble.ScanResult` | ble.ts:72-78 | The value the scan resolves with has no repeated entry, no more entries than listener calls, and only delivered records. |
| `Ble.ScanResultIsFold` | ble.ts:72-78 | A throwing start or stop yields the empty list; otherwise the Set pass changes nothing and the result is the listener's list. |
| `Ble.FindIndex` | ble.ts:56 | Returns -1 exactly when no entry has the id, and otherwise the first index whose entry has it. |
| `Ble.HandleScanEvent` | ble.ts:48-64 | The listener body (skip an error, push an unseen device, overwrite a seen one) computes `Upsert`'s step. |
| `Ble.CollectDevices` | ble.ts:48-64 | Running the listener over the events in order yields `Scanned(events)`. |
| `Ble.BleManager.constructor` | ble.ts:11 | A new manager has had no scan started or stopped on it. |
| `Ble.BleManager.StartDeviceScan` | ble.ts:48 | Records one scan start with the given service filter. |
| `Ble.BleManager.StopDeviceScan` | ble.ts:70 | Records one scan stop. |
| `Ble.BleModule.constructor` | ble.ts:3 | The module starts without a manager. |
| `Ble.BleModule.GetBleManagerInstance` | ble.ts:9-14 | Creates a fresh manager on the first call and returns the stored one on every later call. |
| `Ble.SingletonTwice` | ble.test.ts:41-45 | Two calls return the same manager. |
| `Ble.BleModule.ScanForDevices` | ble.ts:44-79 | Obtains the singleton and starts one scan filtered to the supported services. It stops the scan unless the start threw. It returns `[]` if the start or the stop threw, and the listener's deduplicated list otherwise. |
| `Ble.ServiceUuids` | ble.ts:81-84 | The result has the input's length and element i is the uuid of service i. |
| `Ble.BaseUuid` | ble.ts:20-28 | A 16-bit value in the Base UUID form is 36 characters long and carries the value at positions 5 to 8. |
| `Ble.TableKeysAreBaseUuids` | ble.ts:20-28 | Every key of the name table is the Base UUID form of the 16-bit value at its positions 5 to 8. |
| `Ble.ServiceNameTableEntries` | ble.ts:20-28 | The lookup gives each of the seven keys its name from the table. |
| `Ble.LookupServiceName` | ble.ts:90-91 | The lookup gives a non-empty name other than "Unknown Service" exactly for a key of the table, so the filter accepts exactly the keys present. |
| `Ble.KnownServiceNames` | ble.ts:86-97 | The names are never more than the inputs, and each is a name from the table. |
| `Ble.KnownServiceNamesConcat` | ble.ts:89-94 | Naming distributes over concatenation, so the output keeps input order. |
| `Ble.KnownServiceNamesAllKnown` | ble.ts:89-94 | When every input is known, output i is the name of input i. |
| `Ble.KnownServiceNamesExact` | ble.ts:86-97 | Each known input's name is in the output, and each output name is the name of some known input. |
| `Ble.KnownServiceNamesNoneKnown` | ble.ts:89-94 | Unknown inputs only give the empty list. |
| `Ble.GetServiceNames` | ble.ts:86-97 | The loop over lookups with the `serviceName && serviceName !== 'Unknown Service'` filter computes `KnownServiceNames`. |
| `Ble.SupportedServicesUnnamed` | ble.ts:30-37 | The four short scan-filter values (`180f, 180d, 1818, 1816`) get no name from `getServiceNames`, since every table key is a full 128-bit UUID. |
| `Ble.ScanThreeDistinct` | ble.test.ts:54-65 | Three devices with distinct ids come back as `[d1, d2, d3]`. |
| `Ble.ScanRepeated` | ble.test.ts:67-78 | Events `A, B, A'` (A' has A's id) give `[A', B]`: two entries, with the later record for A at A's first place. |
| `Ble.ServiceNamesExample` | ble.test.ts:113-121 | The Generic Access and Heart Rate UUIDs plus an unknown one give `["Generic Access", "Heart Rate"]`. |
| `ConnectionManager.CallbackRuns` | BluetoothConnectionManager.ts:86-94 | One callback run per registered callback, each naming a registered callback. |
| `ConnectionManager.ConnectEvents` | BluetoothConnectionManager.ts:66-77 | A connect always records the attempt first. The connected observer is recorded only if it was given and the connect succeeded. Only registered callbacks run, and the disconnected observer is never called. |
| `ConnectionManager.CallbackRunsInOrder` | BluetoothConnectionManager.ts:86-94 | One run per registered callback, in registration order. Run i is callback i with its own outcome, so a throwing callback does not stop later ones. |
| `ConnectionManager.ConnectSucceeded` | BluetoothConnectionManager.ts:66-73 | After a successful connect, with an observer that does not throw, the trace gets the attempt, `Connected`, then every callback in order. |
| `ConnectionManager.ConnectFailedRunsNothing` | BluetoothConnectionManager.ts:66-76 | After a failed connect the attempt is the only event: no observer call and no callback. |
| `ConnectionManager.CallbacksRunIff` | BluetoothConnectionManager.ts:66-77 | With a non-empty registry, some callback runs exactly when the connect succeeds and no connected observer throws first. |
| `ConnectionManager.BluetoothConnectionManager.constructor` | BluetoothConnectionManager.ts:11-25 | A new manager is disarmed, has no callbacks and an empty trace. The check interval defaults to 5000. |
| `ConnectionManager.BluetoothConnectionManager.AddOnReconnectCallback` | BluetoothConnectionManager.ts:27-29 | Appends exactly one callback. Earlier entries, the armed flag and the trace are unchanged. |
| `ConnectionManager.BluetoothConnectionManager.StartMonitoringConnection` | BluetoothConnectionManager.ts:31-57 | While armed, changes nothing. Otherwise it makes one connect attempt (`ConnectEvents`) and ends armed whatever the outcome. |
| `ConnectionManager.BluetoothConnectionManager.Tick` | BluetoothConnectionManager.ts:46-56 | Attempts a connect only when `isConnected` answers false. A true answer or a throwing check changes nothing, and the manager stays armed. |
| `ConnectionManager.BluetoothConnectionManager.StopMonitoringConnection` | BluetoothConnectionManager.ts:59-64 | Always ends disarmed. Registry and trace are unchanged, so repeating it changes nothing. |
| `ConnectionManager.BluetoothConnectionManager.ConnectToDevice` | BluetoothConnectionManager.ts:66-77 | Appends `ConnectEvents` to the trace and never changes the armed flag or the registry. |
| `ConnectionManager.BluetoothConnectionManager.RunOnReconnectCallbacks` | BluetoothConnectionManager.ts:86-94 | Appends `CallbackRuns` of the registry to the trace: every callback in order, each whatever the others did. |
| `ConnectionManager.BluetoothConnectionManager.OnDisconnected` | BluetoothConnectionManager.ts:20-24 | A notification carrying a device reaches the disconnected observer, if any. One without a device is ignored. The armed flag never changes. |
| `ConnectionManager.BluetoothConnectionManager.HandleDeviceDisconnected` | BluetoothConnectionManager.ts:80-84 | Calls the disconnected observer only when one was given. The interval and registry are untouched. |

## Left out

- Time: the scan window (`scanTime` seconds, ble.ts:67) and the interval period (`checkInterval`) are not modelled. The events delivered during the window are a parameter. The period is stored but never read.
- Radio calls: `startDeviceScan`, `stopDeviceScan`, `connect`, `isConnected` and `onDisconnected` belong to the radio library. Their outcomes are parameters. `BleManager` only records the scan calls made on it.
- Logging: `console.log` and `console.error` output is not modelled.
- Event-loop concurrency: every tick and every notification is one sequential call. The source has interleavings the model does not capture:
  - `setInterval` does not wait for an earlier tick's pending connect.
  - A callback registered while the callbacks are running is also visited by the running `for…of`.
  - Two `startMonitoringConnection` calls made before the first connect settles both arm an interval, and the first handle is lost.
  - A `stopMonitoringConnection` call made while the first connect of `startMonitoringConnection` is pending (line 40) finds no interval and does nothing. The start then arms the interval at line 46, so the manager is armed after the stop. `StopMonitoringConnection`'s `!armed` holds only for calls made in sequence.
  - A tick that is already past `await isConnected()` (line 48) when `clearInterval` runs still connects and runs every callback after the stop. The model lets no connect follow a `StopMonitoringConnection` until the next start.
- A listener call with neither an error nor a device is not modelled. The source's `device!` assumes the library never makes such a call.
- Set identity: the JavaScript Set deduplicates by object reference, and the model compares values. Entries with distinct ids are distinct under both, and the listener's list has distinct ids (`ScannedIdsUnique`).
- Inherited keys: a lookup in `BLE_SERVICE_NAMES` also finds keys inherited from `Object.prototype` (such as `constructor`). The model's table holds only the seven keys the source lists.
- Heart-rate payload decoding and characteristic subscription are not part of this model, because none of the modelled files implements them.
- App.tsx, BleApp.tsx and components/DevicesList.tsx are not part of this model. They handle rendering, start-up on power-state change and list widgets.
