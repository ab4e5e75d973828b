/** The service `BluetoothLEConnectService`: a GATT client like
    `BluetoothLeService` (it also needs the system's Bluetooth manager and
    asks for service discovery once connected) plus a reduced copy of the
    attribute server that answers characteristic reads and drops
    disconnected devices from a registry nothing ever adds to. */
module LeConnectService {
  import opened BleTypes
  import opened AttributeTable
  import opened GattDispatch
  import opened GattClient

  const ACTION_GATT_CONNECTED: string := "bluetooth.le.ACTION_GATT_CONNECTED"
  const ACTION_GATT_DISCONNECTED: string := "bluetooth.le.ACTION_GATT_DISCONNECTED"
  const ACTION_GATT_SERVICES_DISCOVERED: string := "bluetooth.le.ACTION_GATT_SERVICES_DISCOVERED"
  const ACTION_GATT_DATA_AVAILABLE: string := "bluetooth.le.ACTION_GATT_DATA_AVAILABLE"
  const INTENT_BLUETOOTH_EXTRA_DATA: string := "bluetooth.le.INTENT_BLUETOOTH_EXTRA_DATA"

  class BluetoothLEConnectService {
    var connectionState: int
    /** Whether `bluetoothAdapter` is non-null. */
    var adapterPresent: bool
    /** Whether `bluetoothManager` is non-null. */
    var managerPresent: bool
    var bluetoothGatt: Option<GattHandle>
    /** Every client handle `close` has closed, oldest first. */
    var closedHandles: seq<GattHandle>
    /** Every client handle asked to discover services, oldest first. */
    var discoveryRequests: seq<GattHandle>
    /** Every intent sent with `sendBroadcast`, oldest first. */
    var broadcasts: seq<Broadcast>
    /** The devices subscribed to notifications. */
    var registeredDevices: set<Device>
    /** Whether `bluetoothGattServer` is non-null. */
    var serverOpen: bool
    /** The services the open server publishes. */
    var hostedServices: seq<Service>
    /** Every response sent through the server, oldest first. */
    var sent: seq<Response>
    /** Whether the adapter's `getRemoteDevice` accepts an address; it throws
        for the addresses it rejects. */
    const addressAccepted: string -> bool

    /** The connection flag holds one of its two states, and the registry is
        empty: it starts empty and this service only ever removes from it. */
    ghost predicate Valid()
      reads this
    {
      (connectionState == STATE_DISCONNECTED || connectionState == STATE_CONNECTED)
      && registeredDevices == {}
    }

    constructor (addressAccepted: string -> bool)
      ensures Valid() && connectionState == STATE_DISCONNECTED
      ensures !adapterPresent && !managerPresent && bluetoothGatt == None
      ensures closedHandles == [] && discoveryRequests == [] && broadcasts == []
      ensures registeredDevices == {} && !serverOpen && hostedServices == [] && sent == []
      ensures this.addressAccepted == addressAccepted
    {
      connectionState := STATE_DISCONNECTED;
      adapterPresent := false;
      managerPresent := false;
      bluetoothGatt := None;
      closedHandles := [];
      discoveryRequests := [];
      broadcasts := [];
      registeredDevices := {};
      serverOpen := false;
      hostedServices := [];
      sent := [];
      this.addressAccepted := addressAccepted;
    }

    /** `initialize`: the two flags say whether the platform has a default
        adapter and a Bluetooth manager; it succeeds only with both. */
    method Initialize(defaultAdapterPresent: bool, systemManagerPresent: bool) returns (ok: bool)
      modifies this`adapterPresent, this`managerPresent
      ensures adapterPresent == defaultAdapterPresent && managerPresent == systemManagerPresent
      ensures ok <==> adapterPresent && managerPresent
    {
      adapterPresent := defaultAdapterPresent;
      managerPresent := systemManagerPresent;
      if !adapterPresent || !managerPresent {
        return false;
      }
      return true;
    }

    /** `connect`: fails without an adapter or for an address the adapter
        rejects, leaving the client handle as it was. Otherwise it stores
        whatever `connectGatt` returned (`connectGattResult`, None for null)
        and succeeds, even when that result is null. */
    method Connect(address: string, connectGattResult: Option<GattHandle>) returns (ok: bool)
      modifies this`bluetoothGatt
      ensures ok <==> adapterPresent && addressAccepted(address)
      ensures ok ==> bluetoothGatt == connectGattResult
      ensures !ok ==> bluetoothGatt == old(bluetoothGatt)
    {
      if adapterPresent {
        if addressAccepted(address) {
          bluetoothGatt := connectGattResult;
          return true;
        } else {
          return false;
        }
      } else {
        return false;
      }
    }

    /** `broadcastUpdate(action)`. */
    method BroadcastUpdate(action: string)
      modifies this`broadcasts
      ensures broadcasts == old(broadcasts) + [Broadcast(action, None)]
    {
      broadcasts := broadcasts + [Broadcast(action, None)];
    }

    /** The client callback's `onConnectionStateChange`; on CONNECTED it also
        asks `gatt` to discover the device's services. */
    method OnConnectionStateChange(gatt: GattHandle, status: int, newState: int)
      requires Valid()
      modifies this`connectionState, this`broadcasts, this`discoveryRequests
      ensures Valid()
      ensures connectionState == NextConnectionState(old(connectionState), newState)
      ensures newState == STATE_CONNECTED ==>
                discoveryRequests == old(discoveryRequests) + [gatt]
                && broadcasts == old(broadcasts) + [Broadcast(ACTION_GATT_CONNECTED, None)]
      ensures newState == STATE_DISCONNECTED ==>
                discoveryRequests == old(discoveryRequests)
                && broadcasts == old(broadcasts) + [Broadcast(ACTION_GATT_DISCONNECTED, None)]
      ensures !Decisive(newState) ==>
                discoveryRequests == old(discoveryRequests) && broadcasts == old(broadcasts)
    {
      if newState == STATE_CONNECTED {
        connectionState := STATE_CONNECTED;
        discoveryRequests := discoveryRequests + [gatt];
        BroadcastUpdate(ACTION_GATT_CONNECTED);
      } else if newState == STATE_DISCONNECTED {
        connectionState := STATE_DISCONNECTED;
        BroadcastUpdate(ACTION_GATT_DISCONNECTED);
      }
    }

    /** The client callback's `onServicesDiscovered`. */
    method OnServicesDiscovered(status: int)
      modifies this`broadcasts
      ensures broadcasts == old(broadcasts) +
                if status == GATT_SUCCESS then [Broadcast(ACTION_GATT_SERVICES_DISCOVERED, None)] else []
    {
      if status == GATT_SUCCESS {
        BroadcastUpdate(ACTION_GATT_SERVICES_DISCOVERED);
      }
    }

    /** The client callback's `onCharacteristicRead` for a characteristic
        with id `characteristic` holding `value` (None for null). */
    method OnCharacteristicRead(characteristic: Uuid, value: Option<seq<Byte>>, status: int)
      modifies this`broadcasts
      ensures broadcasts == old(broadcasts) +
                if status == GATT_SUCCESS
                then [DataBroadcast(ACTION_GATT_DATA_AVAILABLE, INTENT_BLUETOOTH_EXTRA_DATA, characteristic, value)]
                else []
    {
      if status == GATT_SUCCESS {
        var b := DataBroadcast(ACTION_GATT_DATA_AVAILABLE, INTENT_BLUETOOTH_EXTRA_DATA, characteristic, value);
        broadcasts := broadcasts + [b];
      }
    }

    /** `startServer`: a server endpoint exists only when the manager does
        and the platform handed one back; an open server publishes the one
        service. */
    method StartServer(endpointOpened: bool)
      modifies this`serverOpen, this`hostedServices
      ensures serverOpen == (managerPresent && endpointOpened)
      ensures hostedServices == if serverOpen then [CreateGattService()] else []
    {
      serverOpen := managerPresent && endpointOpened;
      if serverOpen {
        hostedServices := [CreateGattService()];
      } else {
        hostedServices := [];
      }
    }

    /** The server callback's `onConnectionStateChange`: a disconnect removes
        the device from a registry that is always empty. */
    method OnServerConnectionStateChange(device: Device, status: int, newState: int)
      requires Valid()
      modifies this`registeredDevices
      ensures Valid()
      ensures registeredDevices == RegistryStep(old(registeredDevices), ConnectionStateChange(device, status, newState))
    {
      if newState == STATE_CONNECTED {
      } else if newState == STATE_DISCONNECTED {
        registeredDevices := registeredDevices - {device};
      }
    }

    /** The server callback's `onCharacteristicReadRequest`. */
    method OnCharacteristicReadRequest(device: Device, requestId: int, offset: int, characteristic: Uuid)
      modifies this`sent
      ensures sent == old(sent) +
                if serverOpen then Responses(registeredDevices, CharacteristicRead(device, requestId, offset, characteristic)) else []
    {
      var r;
      if characteristic == CONTENT_CHARACTERISTIC_UUID {
        r := Response(device, requestId, GattSuccess, 0, Some(CONTENT_VALUE));
      } else {
        r := Response(device, requestId, GattFailure, 0, None);
      }
      if serverOpen {
        sent := sent + [r];
      }
    }

    /** `close`: closes the client handle if there is one and forgets it; a
        second call finds nothing to close. */
    method Close()
      modifies this`bluetoothGatt, this`closedHandles
      ensures bluetoothGatt == None
      ensures closedHandles == old(closedHandles) +
                if old(bluetoothGatt).Some? then [old(bluetoothGatt).value] else []
    {
      match bluetoothGatt
      case Some(gatt) =>
        closedHandles := closedHandles + [gatt];
        bluetoothGatt := None;
      case None =>
    }
  }
}
