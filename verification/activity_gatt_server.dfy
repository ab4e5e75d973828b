/** The attribute server hosted by the main activity: the subscription
    registry, the server endpoint (present or not) and the four request
    callbacks. Each callback is proved against the dispatch functions of
    GattDispatch; `sent` records every response handed to the server. */
module ActivityGattServer {
  import opened BleTypes
  import opened AttributeTable
  import opened GattDispatch

  class GattServerHost {
    /** The devices subscribed to notifications. */
    var registeredDevices: set<Device>
    /** Whether `bluetoothGattServer` is non-null. */
    var serverOpen: bool
    /** The services the open server publishes. */
    var hostedServices: seq<Service>
    /** Every response sent through the server, oldest first. */
    var sent: seq<Response>

    constructor ()
      ensures registeredDevices == {} && !serverOpen && hostedServices == [] && sent == []
    {
      registeredDevices := {};
      serverOpen := false;
      hostedServices := [];
      sent := [];
    }

    /** What a callback's `bluetoothGattServer?.sendResponse(...)` calls
        deliver: the responses when a server is open, nothing otherwise. */
    function Delivered(rs: seq<Response>): seq<Response>
      reads this
    {
      if serverOpen then rs else []
    }

    /** `startServer`: `endpointOpened` says whether the platform handed back a
        server endpoint; an open server publishes the one service. */
    method StartServer(endpointOpened: bool)
      modifies this`serverOpen, this`hostedServices
      ensures serverOpen == endpointOpened
      ensures hostedServices == if endpointOpened then [CreateGattService()] else []
    {
      serverOpen := endpointOpened;
      if serverOpen {
        hostedServices := [CreateGattService()];
      } else {
        hostedServices := [];
      }
    }

    /** `bluetoothGattServer?.sendResponse(...)`. */
    method SendResponse(r: Response)
      modifies this`sent
      ensures sent == old(sent) + Delivered([r])
    {
      if serverOpen {
        sent := sent + [r];
      }
    }

    method OnConnectionStateChange(device: Device, status: int, newState: int)
      modifies this`registeredDevices
      ensures registeredDevices == RegistryStep(old(registeredDevices), ConnectionStateChange(device, status, newState))
      ensures newState == STATE_DISCONNECTED ==> device !in registeredDevices
      ensures newState != STATE_DISCONNECTED ==> registeredDevices == old(registeredDevices)
    {
      if newState == STATE_CONNECTED {
      } else if newState == STATE_DISCONNECTED {
        registeredDevices := registeredDevices - {device};
      }
    }

    method OnCharacteristicReadRequest(device: Device, requestId: int, offset: int, characteristic: Uuid)
      modifies this`sent
      ensures sent == old(sent) + Delivered(Responses(registeredDevices, CharacteristicRead(device, requestId, offset, characteristic)))
    {
      if characteristic == CONTENT_CHARACTERISTIC_UUID {
        SendResponse(Response(device, requestId, GattSuccess, 0, Some(CONTENT_VALUE)));
      } else {
        SendResponse(Response(device, requestId, GattFailure, 0, None));
      }
    }

    method OnDescriptorReadRequest(device: Device, requestId: int, offset: int, descriptor: Uuid)
      modifies this`sent
      ensures sent == old(sent) + Delivered(Responses(registeredDevices, DescriptorRead(device, requestId, offset, descriptor)))
    {
      if CONTENT_CONFIG_DESCRIPTION_UUID == descriptor {
        var returnValue := if device in registeredDevices then ENABLE_NOTIFICATION_VALUE else DISABLE_NOTIFICATION_VALUE;
        SendResponse(Response(device, requestId, GattSuccess, 0, Some(returnValue)));
      } else {
        SendResponse(Response(device, requestId, GattFailure, 0, None));
      }
    }

    method OnDescriptorWriteRequest(device: Device, requestId: int, descriptor: Uuid, preparedWrite: bool,
                                    responseNeeded: bool, offset: int, value: seq<Byte>)
      modifies this`registeredDevices, this`sent
      ensures registeredDevices == RegistryStep(old(registeredDevices),
                DescriptorWrite(device, requestId, descriptor, preparedWrite, responseNeeded, offset, value))
      ensures sent == old(sent) + Delivered(Responses(old(registeredDevices),
                DescriptorWrite(device, requestId, descriptor, preparedWrite, responseNeeded, offset, value)))
    {
      if CONTENT_CONFIG_DESCRIPTION_UUID == descriptor {
        if value == ENABLE_NOTIFICATION_VALUE {
          registeredDevices := registeredDevices + {device};
        } else if value == DISABLE_NOTIFICATION_VALUE {
          registeredDevices := registeredDevices - {device};
        }
        if responseNeeded {
          SendResponse(Response(device, requestId, GattSuccess, 0, None));
        }
      } else {
        if responseNeeded {
          SendResponse(Response(device, requestId, GattFailure, 0, None));
        }
      }
    }
  }
}
