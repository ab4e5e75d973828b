/** Values shared by the attribute server and the two GATT client services:
    bytes, UUIDs, devices, response statuses and the platform constants the
    application compares against. */
module BleTypes {

  datatype Option<+T> = None | Some(value: T)

  /** A Kotlin `Byte`: a signed 8-bit value. */
  newtype Byte = b: int | -128 <= b < 128

  /** A `java.util.UUID`, held as its two 64-bit halves. Two UUIDs are equal
      exactly when both halves are; the textual case of the hex digits a UUID
      was parsed from plays no part. */
  datatype Uuid = Uuid(mostSigBits: bv64, leastSigBits: bv64)

  /** A remote device; the platform identifies a device by its hardware address. */
  datatype Device = Device(address: string)

  /** The status a GATT server puts into a response. */
  datatype Status = GattSuccess | GattFailure

  // Connection states reported by the platform's profile callbacks.
  const STATE_DISCONNECTED: int := 0
  const STATE_CONNECTED: int := 2

  /** The numeric status of a successful GATT client operation. */
  const GATT_SUCCESS: int := 0

  // 5AE3B36E-16DB-4732-B2FB-B76CCFE30F89
  const SERVICE_UUID: Uuid := Uuid(0x5AE3_B36E_16DB_4732, 0xB2FB_B76C_CFE3_0F89)
  // 4AED2DB1-2537-4D7B-A2AA-46708B4F7563
  const CONTENT_CHARACTERISTIC_UUID: Uuid := Uuid(0x4AED_2DB1_2537_4D7B, 0xA2AA_4670_8B4F_7563)
  /** 00002902-0000-1000-8000-00805f9b34fb: the Client Characteristic
      Configuration descriptor of the Bluetooth Core Specification, Vol 3,
      Part G, section 3.3.3.3. */
  const CONTENT_CONFIG_DESCRIPTION_UUID: Uuid := Uuid(0x0000_2902_0000_1000, 0x8000_0080_5F9B_34FB)

  /** The two-byte little-endian configuration values that switch
      notifications on and off. */
  const ENABLE_NOTIFICATION_VALUE: seq<Byte> := [0x01, 0x00]
  const DISABLE_NOTIFICATION_VALUE: seq<Byte> := [0x00, 0x00]

  /** `String.toByteArray()` for a string of ASCII characters: one byte per
      character, holding the character's code. */
  function AsciiBytes(s: string): (r: seq<Byte>)
    requires forall i :: 0 <= i < |s| ==> s[i] as int < 128
    ensures |r| == |s|
    ensures forall i :: 0 <= i < |s| ==> r[i] as int == s[i] as int
  {
    if s == [] then [] else [s[0] as int as Byte] + AsciiBytes(s[1..])
  }
}
