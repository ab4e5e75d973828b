/** The attribute table the GATT server publishes: one primary service with
    one readable, notifiable characteristic carrying one read/write
    descriptor. */
module AttributeTable {
  import opened BleTypes

  const SERVICE_TYPE_PRIMARY: int := 0

  // Characteristic property and permission bits.
  const PROPERTY_READ: bv32 := 0x02
  const PROPERTY_NOTIFY: bv32 := 0x10
  const CHARACTERISTIC_PERMISSION_READ: bv32 := 0x01

  // Descriptor permission bits.
  const DESCRIPTOR_PERMISSION_READ: bv32 := 0x01
  const DESCRIPTOR_PERMISSION_WRITE: bv32 := 0x10

  datatype Descriptor = Descriptor(uuid: Uuid, permissions: bv32)

  datatype Characteristic = Characteristic(
    uuid: Uuid,
    properties: bv32,
    permissions: bv32,
    descriptors: seq<Descriptor>)

  datatype Service = Service(uuid: Uuid, serviceType: int, characteristics: seq<Characteristic>)

  /** The service `createGattService` builds. The descriptor it attaches is
      created with the service's own UUID, not with the configuration
      descriptor's UUID that the request handlers compare against. */
  function CreateGattService(): (s: Service)
    ensures s.uuid == SERVICE_UUID && s.serviceType == SERVICE_TYPE_PRIMARY
    ensures |s.characteristics| == 1
    ensures s.characteristics[0].uuid == CONTENT_CHARACTERISTIC_UUID
    ensures s.characteristics[0].properties == PROPERTY_READ | PROPERTY_NOTIFY
    ensures s.characteristics[0].permissions == CHARACTERISTIC_PERMISSION_READ
    ensures |s.characteristics[0].descriptors| == 1
    ensures s.characteristics[0].descriptors[0]
              == Descriptor(SERVICE_UUID, DESCRIPTOR_PERMISSION_READ | DESCRIPTOR_PERMISSION_WRITE)
    ensures forall c :: c in s.characteristics ==>
              forall d :: d in c.descriptors ==> d.uuid != CONTENT_CONFIG_DESCRIPTION_UUID
  {
    var configDescriptor := Descriptor(SERVICE_UUID, DESCRIPTOR_PERMISSION_READ | DESCRIPTOR_PERMISSION_WRITE);
    var contentCharacteristic := Characteristic(
      CONTENT_CHARACTERISTIC_UUID,
      PROPERTY_READ | PROPERTY_NOTIFY,
      CHARACTERISTIC_PERMISSION_READ,
      [configDescriptor]);
    Service(SERVICE_UUID, SERVICE_TYPE_PRIMARY, [contentCharacteristic])
  }
}
