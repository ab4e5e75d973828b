# Bluetooth test app: attribute server and GATT client services in Dafny

This project models the parts of the Android Bluetooth test application that have checkable behaviour:

- **The attribute (GATT) server of the main activity.** It holds a registry of devices subscribed to notifications and answers four callbacks: connection-state change, characteristic read, descriptor read and descriptor write. Each request gets at most one response. A response is (device, request id, status, offset, value or null). The registry is a `set<Device>` field of the class `ActivityGattServer.GattServerHost`. `sent` logs every response handed to `sendResponse`. `serverOpen` says whether `bluetoothGattServer` is non-null, because `sendResponse` is called through `?.` and sends nothing when there is no server.
- **The dispatch rules as functions** (`GattDispatch`). Each handler is proved against `RegistryStep` and `Responses`. Lemmas over whole event histories (`RegistryAfter`) state the subscription properties:
  - an enable write keeps a device subscribed until it writes disable or disconnects;
  - a disconnect always clears the device's subscription;
  - subscribing is idempotent;
  - the descriptor the published service carries is answered as unknown.
- **The published attribute table** (`AttributeTable.CreateGattService`). Its one descriptor is built with the service UUID, not with the Client Characteristic Configuration UUID `00002902-0000-1000-8000-00805f9b34fb`. That UUID is defined in the Bluetooth Core Specification, Vol 3, Part G, section 3.3.3.3, and it is the one the handlers compare against. So requests to the published descriptor take the unknown-descriptor path.
- **The two GATT client services** (`LeService.BluetoothLeService`, `LeConnectService.BluetoothLEConnectService`). They model:
  - the `connectionState` flag (DISCONNECTED = 0, CONNECTED = 2) and its callback;
  - `initialize`, `connect` and `close`;
  - the broadcasts they send.

  `BluetoothLEConnectService` also carries the reduced server copy. Its registry is empty in every reachable state: its `Valid()` states this and every method keeps it.
- **The hex rendering** (`HexFormat`) of `data.joinToString(" ") { String.format("%02X", it) }` on signed bytes. `ParseHex` is its inverse, and round-trip lemmas are proved in both directions.

Devices are compared by address. UUIDs are held as the two 64-bit halves of `java.util.UUID` and compare by value. Kotlin `Byte` is a signed 8-bit newtype.

Three behaviours of the code are easy to miss, and the model keeps them:
- a characteristic read returns the fixed bytes of "send something else", not a stored attribute value;
- the descriptor the service publishes is not the configuration descriptor;
- no response is sent when no server endpoint exists.

In `BluetoothLeService`, a successful read of the content characteristic with a non-null value never broadcasts anything. Before sending, the callback logs `String.format("Received data value: %d", dataValue)` (BluetoothLeService.kt:51-53). `dataValue` is the characteristic's string value, and a `%d` conversion throws on a string argument, so the callback ends there. A null value formats as "null" and is broadcast. `BluetoothLEConnectService` has no such log line and always broadcasts.

The reduced attribute server inside `BluetoothLEConnectService` (BluetoothLEConnectService.kt:191-225) handles only connection changes and characteristic reads. It has no descriptor read or write handlers, so descriptor requests to it get no response from the application.

`BluetoothLEConnectService.kt` and `BluetoothLeService.kt` import `CONTENT_CHARACTERISTIC_UUID` from a companion object of `MainActivity`. `MainActivity.kt` declares it only as a private instance value (MainActivity.kt:101). Both services here use the same constant value.

## Model

| member | source | states |
|---|---|---|
| `BleTypes.AsciiBytes` | app/src/main/java/com/example/bluetoothtest/MainActivity.kt:127 | `toByteArray()` of an ASCII string: one byte per character, equal to the character's code |
| `AttributeTable.CreateGattService` | app/src/main/java/com/example/bluetoothtest/MainActivity.kt:200-220 | one primary service with SERVICE_UUID holding exactly one characteristic: the content characteristic with properties exactly READ \| NOTIFY and read permission, carrying exactly one descriptor, which has SERVICE_UUID and permissions exactly READ \| WRITE; no published descriptor has the configuration descriptor's UUID |
| `GattDispatch.CharacteristicReadResponse` | app/src/main/java/com/example/bluetoothtest/MainActivity.kt:117-139 | the response answers the requester's request id with offset 0; SUCCESS iff the id is the content characteristic, then with the "send something else" bytes, otherwise FAILURE with a null value |
| `GattDispatch.DescriptorReadResponse` | app/src/main/java/com/example/bluetoothtest/MainActivity.kt:141-162 | SUCCESS iff the id is the configuration descriptor, with ENABLE iff the requester is registered and DISABLE iff it is not; FAILURE with null otherwise; offset 0, same request id |
| `GattDispatch.DescriptorWriteRegistry` | app/src/main/java/com/example/bluetoothtest/MainActivity.kt:168-175 | a configuration write of ENABLE adds the writer and DISABLE removes it; any other value or descriptor leaves the registry unchanged; no other device's membership ever changes |
| `GattDispatch.DescriptorWriteResponse` | app/src/main/java/com/example/bluetoothtest/MainActivity.kt:177-191 | a response exists iff `responseNeeded`; it is SUCCESS iff the id is the configuration descriptor, with null value, offset 0 and the request's id |
| `GattDispatch.ConnectionChangeRegistry` | app/src/main/java/com/example/bluetoothtest/MainActivity.kt:107-115 | a DISCONNECTED report removes the device; any other state leaves the registry unchanged; no other device is affected |
| `GattDispatch.RegistryStep` | app/src/main/java/com/example/bluetoothtest/MainActivity.kt:105-193 | one callback changes at most the requesting device's membership, and reads change nothing |
| `GattDispatch.Responses` | app/src/main/java/com/example/bluetoothtest/MainActivity.kt:105-193 | exactly one response per read and per write that needs one, none otherwise; each carries the requester, its request id and offset 0, and is FAILURE iff the attribute id is unknown, and a FAILURE never carries a value |
| `GattDispatch.RegistryAfterAppend` | app/src/main/java/com/example/bluetoothtest/MainActivity.kt:105-193 | the registry after a history ending in an event is that event's step applied to the registry after the rest |
| `GattDispatch.SubscriptionPersists` | app/src/main/java/com/example/bluetoothtest/MainActivity.kt:107-175 | a subscribed device stays subscribed through any history without a DISABLE write or a disconnect for it |
| `GattDispatch.UnsubscribedStaysOut` | app/src/main/java/com/example/bluetoothtest/MainActivity.kt:164-175 | an unsubscribed device stays out through any history without an ENABLE write from it |
| `GattDispatch.ReadAfterEnable` | app/src/main/java/com/example/bluetoothtest/MainActivity.kt:141-175 | after an ENABLE write from a device (prepared or not, at any offset), its configuration read returns SUCCESS with ENABLE until a DISABLE write or a disconnect for it |
| `GattDispatch.DisconnectCleansUp` | app/src/main/java/com/example/bluetoothtest/MainActivity.kt:110-114 | after a disconnect for a device it is not registered, whatever the history before |
| `GattDispatch.RegistryStaysEmptyWithoutWrites` | app/src/main/java/com/example/bluetoothtest/BluetoothLEConnectService.kt:191-225 | a server that only sees connection changes and reads keeps an empty registry empty |
| `GattDispatch.SubscribeIdempotent` | app/src/main/java/com/example/bluetoothtest/MainActivity.kt:169-171 | two ENABLE writes from a device leave the same registry as one |
| `GattDispatch.UnsubscribeAbsentIsNoOp` | app/src/main/java/com/example/bluetoothtest/MainActivity.kt:172-174 | a DISABLE write from an unregistered device changes nothing |
| `GattDispatch.PublishedDescriptorIsUnknown` | app/src/main/java/com/example/bluetoothtest/MainActivity.kt:211-214 | requests to the descriptor the service publishes fail (read, and write when a response is needed) and writes to it never touch the registry |
| `GattDispatch.PublishedCharacteristicIsReadable` | app/src/main/java/com/example/bluetoothtest/MainActivity.kt:205-208 | a read of the published characteristic succeeds with the fixed payload at offset 0 |
| `ActivityGattServer.GattServerHost.constructor` | app/src/main/java/com/example/bluetoothtest/MainActivity.kt:98-99 | no server endpoint, empty registry, nothing sent |
| `ActivityGattServer.GattServerHost.StartServer` | app/src/main/java/com/example/bluetoothtest/MainActivity.kt:195-198 | the endpoint is whatever the platform returned; an open endpoint publishes exactly the created service |
| `ActivityGattServer.GattServerHost.SendResponse` | app/src/main/java/com/example/bluetoothtest/MainActivity.kt:150-154 | a response is appended to the log iff a server endpoint exists |
| `ActivityGattServer.GattServerHost.OnConnectionStateChange` | app/src/main/java/com/example/bluetoothtest/MainActivity.kt:107-115 | the registry becomes `RegistryStep` of the old one; a disconnect removes the device, other states change nothing |
| `ActivityGattServer.GattServerHost.OnCharacteristicReadRequest` | app/src/main/java/com/example/bluetoothtest/MainActivity.kt:117-139 | the log grows by exactly the dispatch function's one response when the server is open, and the registry is untouched |
| `ActivityGattServer.GattServerHost.OnDescriptorReadRequest` | app/src/main/java/com/example/bluetoothtest/MainActivity.kt:141-162 | the log grows by the dispatch function's one response computed from the current registry, which is untouched |
| `ActivityGattServer.GattServerHost.OnDescriptorWriteRequest` | app/src/main/java/com/example/bluetoothtest/MainActivity.kt:164-192 | the registry becomes `RegistryStep` of the old one and the log grows by the dispatch function's responses |
| `HexFormat.Unsigned` | app/src/main/java/com/example/bluetoothtest/BluetoothLeService.kt:61 | `%02X` formats a byte as its value plus 256 when negative, so the value is in 0..255 |
| `HexFormat.ToByte` | app/src/main/java/com/example/bluetoothtest/BluetoothLeService.kt:61 | the signed byte whose unsigned value is the given number |
| `HexFormat.DigitValue` | app/src/main/java/com/example/bluetoothtest/BluetoothLeService.kt:61 | an upper-case hex digit stands for a value in 0..15 |
| `HexFormat.HexDigit` | app/src/main/java/com/example/bluetoothtest/BluetoothLeService.kt:61 | the digit for a value below 16 is an upper-case hex digit whose value is that number |
| `HexFormat.HexPair` | app/src/main/java/com/example/bluetoothtest/BluetoothLeService.kt:61 | exactly two upper-case hex digits whose value, high nibble first, is the byte's unsigned value |
| `HexFormat.JoinHex` | app/src/main/java/com/example/bluetoothtest/BluetoothLeService.kt:60-62 | an empty array renders as ""; n > 0 bytes render as 3n-1 characters |
| `HexFormat.JoinHexAt` | app/src/main/java/com/example/bluetoothtest/BluetoothLEConnectService.kt:125-127 | byte i is rendered by its pair at positions 3i and 3i+1, followed by a single space unless it is the last |
| `HexFormat.PairByte` | app/src/main/java/com/example/bluetoothtest/BluetoothLeService.kt:61 | a two-character text stands for a byte iff both characters are upper-case hex digits |
| `HexFormat.ParseJoinHex` | app/src/main/java/com/example/bluetoothtest/BluetoothLeService.kt:60-62 | every rendering reads back to exactly the bytes it was made from |
| `HexFormat.JoinParseHex` | app/src/main/java/com/example/bluetoothtest/BluetoothLEConnectService.kt:125-127 | every text that reads back to some bytes is exactly their rendering |
| `HexFormat.HexExtra` | app/src/main/java/com/example/bluetoothtest/BluetoothLeService.kt:58-64 | a hex extra exists iff the value is non-null and non-empty; it has 3n-1 characters and reads back to the value |
| `GattClient.NextConnectionState` | app/src/main/java/com/example/bluetoothtest/BluetoothLeService.kt:71-83 | CONNECTED and DISCONNECTED reports are adopted; any other report leaves the flag unchanged |
| `GattClient.LastDecisive` | app/src/main/java/com/example/bluetoothtest/BluetoothLeService.kt:71-83 | the most recent CONNECTED or DISCONNECTED report, if any |
| `GattClient.StateAfterAppend` | app/src/main/java/com/example/bluetoothtest/BluetoothLEConnectService.kt:77-88 | the flag after a history ending in a report is that report's transition applied to the flag after the rest |
| `GattClient.StateAfterIsLastDecisive` | app/src/main/java/com/example/bluetoothtest/BluetoothLEConnectService.kt:77-88 | the flag equals the most recent CONNECTED or DISCONNECTED report, or keeps its value when there is none |
| `GattClient.StateStaysTwoValued` | app/src/main/java/com/example/bluetoothtest/BluetoothLeService.kt:13 | starting DISCONNECTED, the flag only ever holds DISCONNECTED or CONNECTED |
| `GattClient.DataBroadcast` | app/src/main/java/com/example/bluetoothtest/BluetoothLEConnectService.kt:114-133 | the content characteristic sends its string value; any other sends a hex extra iff its value is non-null and non-empty, and that extra has 3n-1 characters and reads back to the value |
| `LeService.BluetoothLeService.constructor` | app/src/main/java/com/example/bluetoothtest/BluetoothLeService.kt:13-15 | starts DISCONNECTED with no adapter and no client handle |
| `LeService.BluetoothLeService.Initialize` | app/src/main/java/com/example/bluetoothtest/BluetoothLeService.kt:17-23 | records the default adapter and returns true iff it is present |
| `LeService.BluetoothLeService.Connect` | app/src/main/java/com/example/bluetoothtest/BluetoothLeService.kt:25-40 | returns true iff the adapter is present and accepts the address; only then is the client handle replaced, by exactly what `connectGatt` returned (possibly null); otherwise it is unchanged |
| `LeService.BluetoothLeService.BroadcastUpdate` | app/src/main/java/com/example/bluetoothtest/BluetoothLeService.kt:42-45 | one intent with the action and no extra is broadcast |
| `LeService.BluetoothLeService.OnConnectionStateChange` | app/src/main/java/com/example/bluetoothtest/BluetoothLeService.kt:71-83 | the flag follows `NextConnectionState` and stays two-valued; CONNECTED and DISCONNECTED each broadcast their action, other states broadcast nothing |
| `LeService.BluetoothLeService.OnServicesDiscovered` | app/src/main/java/com/example/bluetoothtest/BluetoothLeService.kt:85-91 | broadcasts SERVICES_DISCOVERED iff the status is success |
| `LeService.BluetoothLeService.OnCharacteristicRead` | app/src/main/java/com/example/bluetoothtest/BluetoothLeService.kt:47-101 | throws iff the read succeeded on the content characteristic with a non-null value (the `%d` log line); on any other success broadcasts the data intent of `DataBroadcast` under the key EXTRA_DATA; otherwise nothing |
| `LeService.BluetoothLeService.Close` | app/src/main/java/com/example/bluetoothtest/BluetoothLeService.kt:128-133 | the client handle is null afterwards; a present handle is closed once, and a second call closes nothing |
| `LeConnectService.BluetoothLEConnectService.constructor` | app/src/main/java/com/example/bluetoothtest/BluetoothLEConnectService.kt:19-26 | starts DISCONNECTED with no adapter, manager, handle or server, and an empty registry |
| `LeConnectService.BluetoothLEConnectService.Initialize` | app/src/main/java/com/example/bluetoothtest/BluetoothLEConnectService.kt:49-56 | records adapter and manager and returns true iff both are present |
| `LeConnectService.BluetoothLEConnectService.Connect` | app/src/main/java/com/example/bluetoothtest/BluetoothLEConnectService.kt:59-74 | returns true iff the adapter is present and accepts the address; only then is the client handle replaced, by exactly what `connectGatt` returned (possibly null) |
| `LeConnectService.BluetoothLEConnectService.BroadcastUpdate` | app/src/main/java/com/example/bluetoothtest/BluetoothLEConnectService.kt:109-112 | one intent with the action and no extra is broadcast |
| `LeConnectService.BluetoothLEConnectService.OnConnectionStateChange` | app/src/main/java/com/example/bluetoothtest/BluetoothLEConnectService.kt:77-88 | the flag follows `NextConnectionState`; CONNECTED also requests service discovery on the handle; each decisive state broadcasts its action |
| `LeConnectService.BluetoothLEConnectService.OnServicesDiscovered` | app/src/main/java/com/example/bluetoothtest/BluetoothLEConnectService.kt:90-96 | broadcasts SERVICES_DISCOVERED iff the status is success |
| `LeConnectService.BluetoothLEConnectService.OnCharacteristicRead` | app/src/main/java/com/example/bluetoothtest/BluetoothLEConnectService.kt:98-133 | on success broadcasts the data intent of `DataBroadcast` under INTENT_BLUETOOTH_EXTRA_DATA |
| `LeConnectService.BluetoothLEConnectService.StartServer` | app/src/main/java/com/example/bluetoothtest/BluetoothLEConnectService.kt:139-143 | a server endpoint exists iff the manager exists and the platform returned one; it then publishes the created service |
| `LeConnectService.BluetoothLEConnectService.OnServerConnectionStateChange` | app/src/main/java/com/example/bluetoothtest/BluetoothLEConnectService.kt:193-201 | the registry follows `RegistryStep` and stays empty |
| `LeConnectService.BluetoothLEConnectService.OnCharacteristicReadRequest` | app/src/main/java/com/example/bluetoothtest/BluetoothLEConnectService.kt:203-224 | the log grows by exactly the dispatch function's one response when the server is open |
| `LeConnectService.BluetoothLEConnectService.Close` | app/src/main/java/com/example/bluetoothtest/BluetoothLEConnectService.kt:241-246 | the client handle is null afterwards; a present handle is closed once, and a second call closes nothing |

## Left out

- The byte-stream threads `ConnectedThread`, `ConnectThread` and `AcceptThread` (MainActivity.kt:302-455): blocking socket I/O on background threads, meaningful only under concurrency.
- The UI message `Handler`, toasts, button wiring, LE scanning with its timer, advertising, permission requests, discovery, and activity/service lifecycle and binders: platform plumbing.
- The radio calls are modelled only by their observable effect here:
  - `sendResponse` appends to `sent`;
  - `openGattServer` is a flag parameter;
  - `addService` is `hostedServices`;
  - `connectGatt`'s result, possibly null, is a parameter of `Connect`;
  - `gatt.close()` appends to `closedHandles`;
  - `discoverServices()` appends to `discoveryRequests`;
  - `sendBroadcast` appends to `broadcasts`.
- `getRemoteDevice`'s address check is the constructor parameter `addressAccepted`: the platform's rule is not part of this model.
- `getDefaultAdapter()` and `getSystemService(BluetoothManager)` are parameters of `Initialize`.
- `GattClient.DataBroadcast`: `characteristic.getStringValue(0)` is a platform decoding that is not modelled; the extra holds the raw value tagged as a string value.
- `GattClient.DataBroadcast`: the `"$data\n"` prefix of the hex extra prints the array's identity and is left out; the extra holds the hex part only.
- The `println` logging (apart from the throw at BluetoothLeService.kt:53), `Log` calls and the unused `System.currentTimeMillis()` call.
- `readCharacteristic` and `getSupportedGattServices`: they only forward to the platform's client handle.
- Request ids, offsets, statuses and states are unbounded integers: the source passes them through without arithmetic, so 32-bit width plays no part.
- UUID parsing: the UUIDs are constants given as their two 64-bit halves.
