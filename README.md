# BLE bookkeeping of MainActivity, modelled in Dafny

This project models the Bluetooth Low Energy bookkeeping in the Android app's
`MainActivity`. That state is the list of discovered devices, the selected
device, the GATT handle, the `isConnected` flag, and the lists of discovered
services and characteristics. Seven events change it:

- three commands: `startScan`, `connectToDevice` and `disconnect`;
- three platform callbacks: `onScanResult`, `onConnectionStateChange` and `onServicesDiscovered`;
- one more event: the delayed reconnect coroutine firing.

`Activity` (in `main_activity.dfy`) is a class with those fields as `seq` and
`Option` fields. Each handler is a method whose `ensures` gives its whole new
state. Every call the activity makes into the Android BLE stack becomes an
`Effect` appended to the `effects` log, so the model needs no platform
behaviour. These calls are `startScan`, `connectGatt`, `disconnect`,
`discoverServices`, `close`, `setCharacteristicNotification`,
`readCharacteristic` and the launch of the delayed reconnect. A launched
reconnect coroutine that has not fired yet is an entry in
`pendingReconnects`. That entry holds the device the coroutine captured.

Every handler keeps `Valid()` true:

- the device list holds no device twice;
- `characteristics` is always the in-order flattening of `services` (`Flatten`);
- no handle and no pending reconnect exist before some device has been selected.

`ble.dfy` holds the platform values the app reads:

- UUIDs, compared by value as `java.util.UUID` compares them;
- devices, compared by address as `BluetoothDevice.equals` compares them;
- scan results, services, characteristics and GATT handles;
- the two platform lookups the app relies on, `getService` and
  `getCharacteristic`. Each returns the first entry with the requested UUID,
  as Android documents.

`scenarios.dfy` proves the outcome of fixed event sequences on the model. They
pin down behaviours the code has and a tidier lifecycle would not have.

Where a tidier connection lifecycle would behave differently, the model follows the code:

- An explicit `disconnect()` does not cancel a pending reconnect. The
  disconnect callback always schedules a reconnect when a device is selected,
  also after the user disconnected (`Scenarios.ExplicitDisconnectStillReconnects`).
- `services` and `characteristics` are cleared only by the explicit
  `disconnect()`. A link loss and the automatic reconnect keep both lists
  (`Scenarios.ReconnectKeepsDiscoveredLists`), and a second discovery appends
  the same services again (`Scenarios.RediscoveryAppendsAgain`).
- There are no Scanning, Discovering, Ready or ReconnectPending states. There is
  also no connection-identity guard. Callbacks from an earlier handle still
  change the state (`Scenarios.LateDiscoveryIsRecorded`,
  `Scenarios.LateLinkLossReconnectsCurrentDevice`). A reconnect
  captured for an earlier device replaces the handle of the device chosen
  since (`Scenarios.StaleReconnectReplacesHandle`).
- No handler clears `gatt`. `close()` and `disconnect()` leave the old handle
  in the field. It changes only when `connectToDevice` or a fired reconnect
  stores what `connectGatt` returned, which may be null.
- Nothing stores characteristic values or dispatches notifications to
  observers. The value callbacks only log and toast, so the model has no
  `lastValue` and no observer list.
- Inside the GATT callbacks, the parameter `gatt` shadows the field. So
  `discoverServices`, `close` and `getService` act on the handle that delivered
  the event, not on the field. The model passes that handle as the event's
  `g` parameter.

## Model

| member | source | states |
|---|---|---|
| Ble.FindService | app/src/main/java/nl/moukafih/ble/MainActivity.kt:188 | getService finds a service exactly when one with the UUID exists, and returns the first such service |
| Ble.FindCharacteristic | app/src/main/java/nl/moukafih/ble/MainActivity.kt:189 | getCharacteristic finds a characteristic exactly when one with the UUID exists, and returns the first such characteristic |
| MainActivity.FlattenLength | app/src/main/java/nl/moukafih/ble/MainActivity.kt:180-186 | the characteristics the nested loops add number exactly the sum of the per-service counts |
| MainActivity.FlattenSnoc | app/src/main/java/nl/moukafih/ble/MainActivity.kt:180-186 | one more pass of the outer loop adds exactly that service's characteristics, in their order, at the end |
| MainActivity.FlattenAppend | app/src/main/java/nl/moukafih/ble/MainActivity.kt:180-186 | flattening two batches of services one after the other gives the first batch's characteristics followed by the second's, so appending keeps `characteristics` equal to the flattening of `services` |
| MainActivity.FlattenMember | app/src/main/java/nl/moukafih/ble/MainActivity.kt:183-184 | a characteristic is in the flattened list if and only if some discovered service holds it |
| MainActivity.FlattenAt | app/src/main/java/nl/moukafih/ble/MainActivity.kt:180-186 | the k-th characteristic of the i-th service sits at index (count of the earlier services' characteristics) + k, so the order is service by service, each in its own order |
| MainActivity.PrimaryCharacteristicFound | app/src/main/java/nl/moukafih/ble/MainActivity.kt:188-190 | the primary characteristic exists if and only if the discovered services contain SERVICE_UUID and the first such service holds CHARACTERISTIC_UUID; when it exists it is the first characteristic with CHARACTERISTIC_UUID in the first service with SERVICE_UUID, and is among the discovered characteristics |
| MainActivity.PrimaryRequests | app/src/main/java/nl/moukafih/ble/MainActivity.kt:190-195 | notification-enable and then the initial read, both on the event's handle and the same primary characteristic, are requested exactly when that characteristic exists; neither is requested otherwise |
| MainActivity.Activity.constructor | app/src/main/java/nl/moukafih/ble/MainActivity.kt:49-54 | the activity starts with no handle, no selected device, not connected, empty lists and no requests |
| MainActivity.Activity.StartScan | app/src/main/java/nl/moukafih/ble/MainActivity.kt:101-133 | the device list is emptied, and a scan is requested only when the adapter offers a scanner |
| MainActivity.Activity.OnScanResult | app/src/main/java/nl/moukafih/ble/MainActivity.kt:116-123 | a device not yet listed is appended at the end; a listed device, a null result or a null device leaves the list unchanged; the list stays duplicate-free |
| MainActivity.Activity.ConnectToDevice | app/src/main/java/nl/moukafih/ble/MainActivity.kt:135-139 | the device becomes the selected device, exactly one connect request for it is logged, and its result replaces the handle |
| MainActivity.Activity.Disconnect | app/src/main/java/nl/moukafih/ble/MainActivity.kt:141-147 | services and characteristics become empty and the flag false; a platform disconnect is requested only when a handle exists; the handle, the device list, the selected device and any pending reconnect are unchanged |
| MainActivity.Activity.Reconnect | app/src/main/java/nl/moukafih/ble/MainActivity.kt:149-156 | when a device is selected, exactly one delayed reconnect to that device is scheduled with a 5000 ms delay; otherwise nothing happens |
| MainActivity.Activity.ReconnectTimerFires | app/src/main/java/nl/moukafih/ble/MainActivity.kt:151-154 | a fired reconnect requests a connection to the device it captured, replaces the handle with the result and leaves the selected device alone |
| MainActivity.Activity.OnConnectionStateChange | app/src/main/java/nl/moukafih/ble/MainActivity.kt:159-173 | connected: flag true and discovery requested on the event's handle; disconnected: flag false, close requested on the event's handle, and a reconnect scheduled exactly when a device is selected; any other state changes nothing |
| MainActivity.Activity.OnServicesDiscovered | app/src/main/java/nl/moukafih/ble/MainActivity.kt:175-202 | on success the event's services are appended in order and their characteristics appended flattened, without clearing, so the characteristic list grows by the sum of the per-service counts, then the primary requests are made; a failure status or a null handle changes nothing |
| MainActivity.Activity.AppendDiscovered | app/src/main/java/nl/moukafih/ble/MainActivity.kt:180-186 | the nested loops append exactly the services, and exactly their flattened characteristics, after what was there |
| Scenarios.ScanListsEachDeviceOnce | app/src/main/java/nl/moukafih/ble/MainActivity.kt:101-123 | after a scan reporting two devices repeatedly, plus null results, the list holds exactly the two devices in first-report order |
| Scenarios.ExplicitDisconnectStillReconnects | app/src/main/java/nl/moukafih/ble/MainActivity.kt:141-171 | a user disconnect followed by the disconnected callback still schedules and fires a reconnect to the same device |
| Scenarios.ReconnectKeepsDiscoveredLists | app/src/main/java/nl/moukafih/ble/MainActivity.kt:143-186 | a link loss and the automatic reconnect leave the discovered services and characteristics in place |
| Scenarios.RediscoveryAppendsAgain | app/src/main/java/nl/moukafih/ble/MainActivity.kt:179-186 | a second discovery of the same services, with no explicit disconnect between, doubles both lists |
| Scenarios.LateDiscoveryIsRecorded | app/src/main/java/nl/moukafih/ble/MainActivity.kt:135-186 | a discovery on the handle of an earlier connection is recorded after another device was selected |
| Scenarios.LateLinkLossReconnectsCurrentDevice | app/src/main/java/nl/moukafih/ble/MainActivity.kt:135-171 | a link loss on the handle of an earlier connection closes that handle and schedules a reconnect to the device selected now |
| Scenarios.StaleReconnectReplacesHandle | app/src/main/java/nl/moukafih/ble/MainActivity.kt:135-171 | a reconnect captured for an earlier device replaces the handle while another device is selected |

## Left out

- Permission requests, `onCreate`, `setContent` and navigation (`navigate`, `navigateUp`): these are UI and platform lifecycle.
- DeviceListScreen.kt and DeviceDetailsScreen.kt: they only render the state and hold none of their own.
- Toasts, `Log` calls and `onScanFailed`: they only produce output.
- `onCharacteristicRead`, `onCharacteristicWrite` and `onCharacteristicChanged`: they only decode the platform-owned value as UTF-8 and log or toast it. They change no state of the activity.
- The unused `ScanFilter` and `ScanSettings` objects, and the commented-out filtered scan call.
- What the platform does with each requested call (connecting, discovering, closing, notifying). Each call is only logged as an `Effect`. Values the platform returns are method parameters:
  - what `connectGatt` returns is `handle`, which may be `None` (null); a returned handle belongs to the device it was opened for, which `ConnectToDevice` and `ReconnectTimerFires` require of their callers;
  - whether the adapter has a scanner is `scannerPresent`;
  - the handle and service list a callback delivers are `g` and `gattServices`.
- The 5000 ms delay, `Dispatchers.IO` and thread interleaving: a launched reconnect is an entry in `pendingReconnects`. `ReconnectTimerFires` runs it atomically, at a time and in an order the caller picks. The model has no clock.
- Concurrency between handlers: each handler, including the nested loops of `OnServicesDiscovered`, `Disconnect` and `ReconnectTimerFires`, is modelled as one uninterrupted step. In the app, GATT callbacks run on a binder thread, `disconnect()` on the UI thread and the reconnect on `Dispatchers.IO`, so a `disconnect()` can clear the lists while a discovery callback is appending to them. `Valid()` and the invariant `characteristics == Flatten(services)` are proved only under the one-step assumption.
- Each scan registers a new scan callback and never stops the previous scan. All these callbacks run the same body, so the model has one `OnScanResult` and does not track which scan delivered a result.
- The `status` argument of `onConnectionStateChange`: the code ignores it, and so does the model.
