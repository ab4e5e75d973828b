/** How the GATT server answers requests and keeps its subscription registry,
    as functions of the registry and the incoming event. The server classes
    prove their handlers against these functions; the lemmas below state what
    the dispatch promises over single events and over whole event histories. */
module GattDispatch {
  import opened BleTypes
  import opened AttributeTable

  /** One `sendResponse` call: the device and request it answers, the status,
      the offset and the value (None for a null value). */
  datatype Response = Response(device: Device, requestId: int, status: Status, offset: int, value: Option<seq<Byte>>)

  /** A callback the platform delivers to the server. */
  datatype ServerEvent =
    | ConnectionStateChange(device: Device, status: int, newState: int)
    | CharacteristicRead(device: Device, requestId: int, offset: int, characteristic: Uuid)
    | DescriptorRead(device: Device, requestId: int, offset: int, descriptor: Uuid)
    | DescriptorWrite(device: Device, requestId: int, descriptor: Uuid, preparedWrite: bool,
                      responseNeeded: bool, offset: int, value: seq<Byte>)

  /** The payload of the content characteristic: "send something else" as bytes. */
  const CONTENT_VALUE: seq<Byte> := AsciiBytes("send something else")

  /** The answer to a characteristic read: the fixed payload for the content
      characteristic, a failure without a value for any other. The request's
      offset is ignored. */
  function CharacteristicReadResponse(device: Device, requestId: int, offset: int, characteristic: Uuid): (r: Response)
    ensures r.device == device && r.requestId == requestId && r.offset == 0
    ensures r.status == GattSuccess <==> characteristic == CONTENT_CHARACTERISTIC_UUID
    ensures r.status == GattSuccess ==> r.value == Some(CONTENT_VALUE)
    ensures r.status == GattFailure ==> r.value == None
  {
    if characteristic == CONTENT_CHARACTERISTIC_UUID then
      Response(device, requestId, GattSuccess, 0, Some(CONTENT_VALUE))
    else
      Response(device, requestId, GattFailure, 0, None)
  }

  /** The answer to a descriptor read: for the configuration descriptor, the
      enable value if the requester is subscribed and the disable value
      otherwise; a failure without a value for any other descriptor. */
  function DescriptorReadResponse(registered: set<Device>, device: Device, requestId: int, offset: int, descriptor: Uuid): (r: Response)
    ensures r.device == device && r.requestId == requestId && r.offset == 0
    ensures r.status == GattSuccess <==> descriptor == CONTENT_CONFIG_DESCRIPTION_UUID
    ensures r.status == GattSuccess ==> (r.value == Some(ENABLE_NOTIFICATION_VALUE) <==> device in registered)
    ensures r.status == GattSuccess ==> (r.value == Some(DISABLE_NOTIFICATION_VALUE) <==> device !in registered)
    ensures r.status == GattFailure ==> r.value == None
  {
    if CONTENT_CONFIG_DESCRIPTION_UUID == descriptor then
      var returnValue := if device in registered then ENABLE_NOTIFICATION_VALUE else DISABLE_NOTIFICATION_VALUE;
      Response(device, requestId, GattSuccess, 0, Some(returnValue))
    else
      Response(device, requestId, GattFailure, 0, None)
  }

  /** The registry after a descriptor write: the enable value subscribes the
      writer, the disable value unsubscribes it, anything else (and any write
      to another descriptor) leaves the registry as it was. Only the writer's
      membership can change. */
  function DescriptorWriteRegistry(registered: set<Device>, device: Device, descriptor: Uuid, value: seq<Byte>): (r: set<Device>)
    ensures forall p :: p != device ==> (p in r <==> p in registered)
    ensures descriptor == CONTENT_CONFIG_DESCRIPTION_UUID && value == ENABLE_NOTIFICATION_VALUE ==> device in r
    ensures descriptor == CONTENT_CONFIG_DESCRIPTION_UUID && value == DISABLE_NOTIFICATION_VALUE ==> device !in r
    ensures descriptor != CONTENT_CONFIG_DESCRIPTION_UUID ==> r == registered
    ensures value != ENABLE_NOTIFICATION_VALUE && value != DISABLE_NOTIFICATION_VALUE ==> r == registered
  {
    if CONTENT_CONFIG_DESCRIPTION_UUID == descriptor then
      if value == ENABLE_NOTIFICATION_VALUE then registered + {device}
      else if value == DISABLE_NOTIFICATION_VALUE then registered - {device}
      else registered
    else
      registered
  }

  /** The answer to a descriptor write: present only when the writer asked for
      one; a success for the configuration descriptor and a failure for any
      other, never with a value. */
  function DescriptorWriteResponse(device: Device, requestId: int, descriptor: Uuid, responseNeeded: bool, offset: int): (r: Option<Response>)
    ensures r.Some? <==> responseNeeded
    ensures r.Some? ==> r.value.device == device && r.value.requestId == requestId
                        && r.value.offset == 0 && r.value.value == None
    ensures r.Some? ==> (r.value.status == GattSuccess <==> descriptor == CONTENT_CONFIG_DESCRIPTION_UUID)
  {
    if !responseNeeded then None
    else if CONTENT_CONFIG_DESCRIPTION_UUID == descriptor then Some(Response(device, requestId, GattSuccess, 0, None))
    else Some(Response(device, requestId, GattFailure, 0, None))
  }

  /** The registry after a connection-state change: a disconnect removes the
      device whatever its history; any other state leaves the registry alone. */
  function ConnectionChangeRegistry(registered: set<Device>, device: Device, newState: int): (r: set<Device>)
    ensures newState == STATE_DISCONNECTED ==> device !in r
    ensures forall p :: p != device ==> (p in r <==> p in registered)
    ensures newState != STATE_DISCONNECTED ==> r == registered
  {
    if newState == STATE_CONNECTED then registered
    else if newState == STATE_DISCONNECTED then registered - {device}
    else registered
  }

  /** The registry after one event. */
  function RegistryStep(registered: set<Device>, e: ServerEvent): (r: set<Device>)
    ensures forall p :: p != e.device ==> (p in r <==> p in registered)
    ensures e.CharacteristicRead? || e.DescriptorRead? ==> r == registered
  {
    match e
    case ConnectionStateChange(device, _, newState) => ConnectionChangeRegistry(registered, device, newState)
    case CharacteristicRead(_, _, _, _) => registered
    case DescriptorRead(_, _, _, _) => registered
    case DescriptorWrite(device, _, descriptor, _, _, _, value) => DescriptorWriteRegistry(registered, device, descriptor, value)
  }

  /** Whether an event names an attribute the server knows: connection
      changes always do; requests do when their id is the content
      characteristic or the configuration descriptor. */
  predicate KnownAttribute(e: ServerEvent) {
    match e
    case ConnectionStateChange(_, _, _) => true
    case CharacteristicRead(_, _, _, characteristic) => characteristic == CONTENT_CHARACTERISTIC_UUID
    case DescriptorRead(_, _, _, descriptor) => descriptor == CONTENT_CONFIG_DESCRIPTION_UUID
    case DescriptorWrite(_, _, descriptor, _, _, _, _) => descriptor == CONTENT_CONFIG_DESCRIPTION_UUID
  }

  /** Whether an event is a request the server must answer. */
  predicate NeedsResponse(e: ServerEvent) {
    match e
    case ConnectionStateChange(_, _, _) => false
    case CharacteristicRead(_, _, _, _) => true
    case DescriptorRead(_, _, _, _) => true
    case DescriptorWrite(_, _, _, _, responseNeeded, _, _) => responseNeeded
  }

  /** The responses the server's callback sends for one event, given the
      registry as it was when the event arrived. Every request that needs an
      answer gets exactly one, addressed to the requester with its request id
      and offset 0, and it fails exactly when the attribute is unknown. */
  function Responses(registered: set<Device>, e: ServerEvent): (rs: seq<Response>)
    ensures |rs| == if NeedsResponse(e) then 1 else 0
    ensures forall r :: r in rs ==> !e.ConnectionStateChange? && r.device == e.device
                                    && r.requestId == e.requestId && r.offset == 0
    ensures forall r :: r in rs ==> (r.status == GattFailure <==> !KnownAttribute(e))
    ensures forall r :: r in rs && r.status == GattFailure ==> r.value == None
  {
    match e
    case ConnectionStateChange(_, _, _) => []
    case CharacteristicRead(device, requestId, offset, characteristic) =>
      [CharacteristicReadResponse(device, requestId, offset, characteristic)]
    case DescriptorRead(device, requestId, offset, descriptor) =>
      [DescriptorReadResponse(registered, device, requestId, offset, descriptor)]
    case DescriptorWrite(device, requestId, descriptor, _, responseNeeded, offset, _) =>
      match DescriptorWriteResponse(device, requestId, descriptor, responseNeeded, offset)
      case Some(r) => [r]
      case None => []
  }

  /** The registry after a whole history of events, first event first. */
  function RegistryAfter(registered: set<Device>, events: seq<ServerEvent>): set<Device>
    decreases |events|
  {
    if events == [] then registered else RegistryAfter(RegistryStep(registered, events[0]), events[1..])
  }

  /** An event after which `device` is certainly not subscribed. */
  predicate Unsubscribes(e: ServerEvent, device: Device) {
    e.device == device &&
    ((e.ConnectionStateChange? && e.newState == STATE_DISCONNECTED) ||
     (e.DescriptorWrite? && e.descriptor == CONTENT_CONFIG_DESCRIPTION_UUID && e.value == DISABLE_NOTIFICATION_VALUE))
  }

  /** An event after which `device` is certainly subscribed. */
  predicate Subscribes(e: ServerEvent, device: Device) {
    e.DescriptorWrite? && e.device == device &&
    e.descriptor == CONTENT_CONFIG_DESCRIPTION_UUID && e.value == ENABLE_NOTIFICATION_VALUE
  }

  /** The last event of a history decides the registry's last step. */
  lemma {:induction false} RegistryAfterAppend(registered: set<Device>, events: seq<ServerEvent>, e: ServerEvent)
    ensures RegistryAfter(registered, events + [e]) == RegistryStep(RegistryAfter(registered, events), e)
    decreases |events|
  {
    if events == [] {
      assert events + [e] == [e];
    } else {
      assert (events + [e])[1..] == events[1..] + [e];
      RegistryAfterAppend(RegistryStep(registered, events[0]), events[1..], e);
    }
  }

  /** A subscribed device stays subscribed through any history that contains
      neither a disable write nor a disconnect for it. */
  lemma {:induction false} SubscriptionPersists(registered: set<Device>, device: Device, events: seq<ServerEvent>)
    requires device in registered
    requires forall i :: 0 <= i < |events| ==> !Unsubscribes(events[i], device)
    ensures device in RegistryAfter(registered, events)
    decreases |events|
  {
    if events != [] {
      var e := events[0];
      assert !Unsubscribes(e, device);
      assert device in RegistryStep(registered, e);
      SubscriptionPersists(RegistryStep(registered, e), device, events[1..]);
    }
  }

  /** An unsubscribed device stays unsubscribed through any history that
      contains no enable write from it. */
  lemma {:induction false} UnsubscribedStaysOut(registered: set<Device>, device: Device, events: seq<ServerEvent>)
    requires device !in registered
    requires forall i :: 0 <= i < |events| ==> !Subscribes(events[i], device)
    ensures device !in RegistryAfter(registered, events)
    decreases |events|
  {
    if events != [] {
      var e := events[0];
      assert !Subscribes(e, device);
      assert device !in RegistryStep(registered, e);
      UnsubscribedStaysOut(RegistryStep(registered, e), device, events[1..]);
    }
  }

  /** After an enable write from a device, a configuration-descriptor read from
      that device answers "enabled" for as long as no disable write and no
      disconnect for it has arrived. */
  lemma ReadAfterEnable(registered: set<Device>, device: Device, writeId: int, preparedWrite: bool,
                        responseNeeded: bool, writeOffset: int,
                        events: seq<ServerEvent>, readId: int, offset: int)
    requires forall i :: 0 <= i < |events| ==> !Unsubscribes(events[i], device)
    ensures
      var enable := DescriptorWrite(device, writeId, CONTENT_CONFIG_DESCRIPTION_UUID, preparedWrite,
                                    responseNeeded, writeOffset, ENABLE_NOTIFICATION_VALUE);
      var after := RegistryAfter(registered, [enable] + events);
      DescriptorReadResponse(after, device, readId, offset, CONTENT_CONFIG_DESCRIPTION_UUID)
        == Response(device, readId, GattSuccess, 0, Some(ENABLE_NOTIFICATION_VALUE))
  {
    var enable := DescriptorWrite(device, writeId, CONTENT_CONFIG_DESCRIPTION_UUID, preparedWrite,
                                  responseNeeded, writeOffset, ENABLE_NOTIFICATION_VALUE);
    assert ([enable] + events)[1..] == events;
    SubscriptionPersists(RegistryStep(registered, enable), device, events);
  }

  /** No subscription survives a disconnect, whatever came before it. */
  lemma DisconnectCleansUp(registered: set<Device>, events: seq<ServerEvent>, device: Device, status: int)
    ensures device !in RegistryAfter(registered, events + [ConnectionStateChange(device, status, STATE_DISCONNECTED)])
  {
    RegistryAfterAppend(registered, events, ConnectionStateChange(device, status, STATE_DISCONNECTED));
  }

  /** A server that handles no descriptor writes never subscribes anyone: an
      empty registry stays empty through any history of connection changes
      and reads. */
  lemma {:induction false} RegistryStaysEmptyWithoutWrites(events: seq<ServerEvent>)
    requires forall i :: 0 <= i < |events| ==> !events[i].DescriptorWrite?
    ensures RegistryAfter({}, events) == {}
    decreases |events|
  {
    if events != [] {
      assert RegistryStep({}, events[0]) == {};
      RegistryStaysEmptyWithoutWrites(events[1..]);
    }
  }

  /** Enabling twice is the same as enabling once. */
  lemma SubscribeIdempotent(registered: set<Device>, device: Device)
    ensures
      var once := DescriptorWriteRegistry(registered, device, CONTENT_CONFIG_DESCRIPTION_UUID, ENABLE_NOTIFICATION_VALUE);
      DescriptorWriteRegistry(once, device, CONTENT_CONFIG_DESCRIPTION_UUID, ENABLE_NOTIFICATION_VALUE) == once
  {
  }

  /** Disabling a device that is not subscribed changes nothing. */
  lemma UnsubscribeAbsentIsNoOp(registered: set<Device>, device: Device)
    requires device !in registered
    ensures DescriptorWriteRegistry(registered, device, CONTENT_CONFIG_DESCRIPTION_UUID, DISABLE_NOTIFICATION_VALUE) == registered
  {
  }

  /** A request addressed to the descriptor the published service actually
      carries is answered as an unknown descriptor: reads and writes that need
      a response fail, and a write never touches the registry. */
  lemma PublishedDescriptorIsUnknown(registered: set<Device>, device: Device, requestId: int, offset: int,
                                     responseNeeded: bool, value: seq<Byte>)
    ensures
      var d := CreateGattService().characteristics[0].descriptors[0];
      DescriptorReadResponse(registered, device, requestId, offset, d.uuid).status == GattFailure
      && DescriptorWriteRegistry(registered, device, d.uuid, value) == registered
      && (responseNeeded ==>
            DescriptorWriteResponse(device, requestId, d.uuid, responseNeeded, offset)
              == Some(Response(device, requestId, GattFailure, 0, None)))
  {
    var d := CreateGattService().characteristics[0].descriptors[0];
    assert d in CreateGattService().characteristics[0].descriptors;
  }

  /** A read of the characteristic the published service carries succeeds
      with the fixed payload. */
  lemma PublishedCharacteristicIsReadable(device: Device, requestId: int, offset: int)
    ensures
      var c := CreateGattService().characteristics[0];
      CharacteristicReadResponse(device, requestId, offset, c.uuid)
        == Response(device, requestId, GattSuccess, 0, Some(CONTENT_VALUE))
  {
  }
}
