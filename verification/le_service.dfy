/** The GATT client service `BluetoothLeService`: it finds the default
    adapter, connects to a device by address, tracks the connection flag
    reported by its client callback, broadcasts what it learns, and closes
    its client handle. */
module LeService {
  import opened BleTypes
  import opened GattClient

  const ACTION_GATT_CONNECTED: string := "com.example.bluetooth.le.ACTION_GATT_CONNECTED"
  const ACTION_GATT_DISCONNECTED: string := "com.example.bluetooth.le.ACTION_GATT_DISCONNECTED"
  const ACTION_GATT_SERVICES_DISCOVERED: string := "com.example.bluetooth.le.ACTION_GATT_SERVICES_DISCOVERED"
  const ACTION_GATT_DATA_AVAILABLE: string := "com.example.bluetooth.le.ACTION_GATT_DATA_AVAILABLE"
  const EXTRA_DATA: string := "EXTRA_DATA"

  class BluetoothLeService {
    var connectionState: int
    /** Whether `bluetoothAdapter` is non-null. */
    var adapterPresent: bool
    var bluetoothGatt: Option<GattHandle>
    /** Every client handle `close` has closed, oldest first. */
    var closedHandles: seq<GattHandle>
    /** Every intent sent with `sendBroadcast`, oldest first. */
    var broadcasts: seq<Broadcast>
    /** Whether the adapter's `getRemoteDevice` accepts an address; it throws
        for the addresses it rejects. */
    const addressAccepted: string -> bool

    /** The connection flag holds one of the two states the service uses. */
    ghost predicate Valid()
      reads this
    {
      connectionState == STATE_DISCONNECTED || connectionState == STATE_CONNECTED
    }

    constructor (addressAccepted: string -> bool)
      ensures Valid() && connectionState == STATE_DISCONNECTED
      ensures !adapterPresent && bluetoothGatt == None
      ensures closedHandles == [] && broadcasts == []
      ensures this.addressAccepted == addressAccepted
    {
      connectionState := STATE_DISCONNECTED;
      adapterPresent := false;
      bluetoothGatt := None;
      closedHandles := [];
      broadcasts := [];
      this.addressAccepted := addressAccepted;
    }

    /** `initialize`: `defaultAdapterPresent` says whether the platform has a
        default adapter; the result says whether the service can work. */
    method Initialize(defaultAdapterPresent: bool) returns (ok: bool)
      modifies this`adapterPresent
      ensures adapterPresent == defaultAdapterPresent
      ensures ok <==> adapterPresent
    {
      adapterPresent := defaultAdapterPresent;
      if !adapterPresent {
        return false;
      }
      return true;
    }

    /** `connect`: fails without an adapter or for an address the adapter
        rejects, leaving the client handle as it was. Otherwise it stores
        whatever `connectGatt` returned (`connectGattResult`, None for null)
        and succeeds, even when that result is null. */
    method Connect(address: string, connectGattResult: Option<GattHandle>) returns (ok: bool)
      modifies this`bluetoothGatt
      ensures ok <==> adapterPresent && addressAccepted(address)
      ensures ok ==> bluetoothGatt == connectGattResult
      ensures !ok ==> bluetoothGatt == old(bluetoothGatt)
    {
      if adapterPresent {
        if addressAccepted(address) {
          bluetoothGatt := connectGattResult;
          return true;
        } else {
          return false;
        }
      } else {
        return false;
      }
    }

    /** `broadcastUpdate(action)`. */
    method BroadcastUpdate(action: string)
      modifies this`broadcasts
      ensures broadcasts == old(broadcasts) + [Broadcast(action, None)]
    {
      broadcasts := broadcasts + [Broadcast(action, None)];
    }

    /** The client callback's `onConnectionStateChange`. */
    method OnConnectionStateChange(gatt: GattHandle, status: int, newState: int)
      requires Valid()
      modifies this`connectionState, this`broadcasts
      ensures Valid()
      ensures connectionState == NextConnectionState(old(connectionState), newState)
      ensures newState == STATE_CONNECTED ==>
                broadcasts == old(broadcasts) + [Broadcast(ACTION_GATT_CONNECTED, None)]
      ensures newState == STATE_DISCONNECTED ==>
                broadcasts == old(broadcasts) + [Broadcast(ACTION_GATT_DISCONNECTED, None)]
      ensures !Decisive(newState) ==> broadcasts == old(broadcasts)
    {
      if newState == STATE_CONNECTED {
        connectionState := STATE_CONNECTED;
        BroadcastUpdate(ACTION_GATT_CONNECTED);
      } else if newState == STATE_DISCONNECTED {
        connectionState := STATE_DISCONNECTED;
        BroadcastUpdate(ACTION_GATT_DISCONNECTED);
      }
    }

    /** The client callback's `onServicesDiscovered`. */
    method OnServicesDiscovered(status: int)
      modifies this`broadcasts
      ensures broadcasts == old(broadcasts) +
                if status == GATT_SUCCESS then [Broadcast(ACTION_GATT_SERVICES_DISCOVERED, None)] else []
    {
      if status == GATT_SUCCESS {
        BroadcastUpdate(ACTION_GATT_SERVICES_DISCOVERED);
      }
    }

    /** The client callback's `onCharacteristicRead` for a characteristic
        with id `characteristic` holding `value` (None for null). For the
        content characteristic the callback first logs
        `String.format("Received data value: %d", dataValue)`. `dataValue`
        comes from `getStringValue(0)`, which is non-null exactly when the
        value is non-null, and `%d` rejects a string argument. So a non-null
        content value makes the callback throw before anything is broadcast
        (`threw`). A null argument formats as "null" and the broadcast goes
        out. */
    method OnCharacteristicRead(characteristic: Uuid, value: Option<seq<Byte>>, status: int) returns (threw: bool)
      modifies this`broadcasts
      ensures threw <==> status == GATT_SUCCESS && characteristic == CONTENT_CHARACTERISTIC_UUID && value.Some?
      ensures broadcasts == old(broadcasts) +
                if status == GATT_SUCCESS && !threw
                then [DataBroadcast(ACTION_GATT_DATA_AVAILABLE, EXTRA_DATA, characteristic, value)]
                else []
    {
      threw := false;
      if status == GATT_SUCCESS {
        if characteristic == CONTENT_CHARACTERISTIC_UUID && value.Some? {
          threw := true;
          return;
        }
        var b := DataBroadcast(ACTION_GATT_DATA_AVAILABLE, EXTRA_DATA, characteristic, value);
        broadcasts := broadcasts + [b];
      }
    }

    /** `close`: closes the client handle if there is one and forgets it; a
        second call finds nothing to close. */
    method Close()
      modifies this`bluetoothGatt, this`closedHandles
      ensures bluetoothGatt == None
      ensures closedHandles == old(closedHandles) +
                if old(bluetoothGatt).Some? then [old(bluetoothGatt).value] else []
    {
      match bluetoothGatt
      case Some(gatt) =>
        closedHandles := closedHandles + [gatt];
        bluetoothGatt := None;
      case None =>
    }
  }
}
