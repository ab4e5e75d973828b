/** What the two GATT client services have in common: the connection flag's
    transitions, the client handle, and the intents they broadcast. */
module GattClient {
  import opened BleTypes
  import opened HexFormat

  /** The `BluetoothGatt` client handle `connectGatt` returns for the device
      at `address`. */
  datatype GattHandle = GattHandle(address: string)

  /** The value an intent extra carries. */
  datatype ExtraValue =
    /** `getStringValue(0)` of the characteristic holding `value`; the
        platform's string decoding is not modelled. */
    | CharacteristicString(value: Option<seq<Byte>>)
    /** The hex rendering of the characteristic's value. */
    | HexDump(hex: string)

  datatype Extra = Extra(key: string, value: ExtraValue)

  /** A broadcast intent: its action and at most one extra. */
  datatype Broadcast = Broadcast(action: string, extra: Option<Extra>)

  /** `connectionState` after a connection-state callback reporting
      `newState`: CONNECTED and DISCONNECTED are adopted, anything else is
      ignored. */
  function NextConnectionState(current: int, newState: int): (s: int)
    ensures newState == STATE_CONNECTED ==> s == STATE_CONNECTED
    ensures newState == STATE_DISCONNECTED ==> s == STATE_DISCONNECTED
    ensures newState != STATE_CONNECTED && newState != STATE_DISCONNECTED ==> s == current
  {
    if newState == STATE_CONNECTED then STATE_CONNECTED
    else if newState == STATE_DISCONNECTED then STATE_DISCONNECTED
    else current
  }

  /** `connectionState` after a history of reported states, first first. */
  function StateAfter(current: int, reported: seq<int>): int
    decreases |reported|
  {
    if reported == [] then current else StateAfter(NextConnectionState(current, reported[0]), reported[1..])
  }

  predicate Decisive(newState: int) {
    newState == STATE_CONNECTED || newState == STATE_DISCONNECTED
  }

  /** The most recent reported state that was CONNECTED or DISCONNECTED. */
  function LastDecisive(reported: seq<int>): (r: Option<int>)
    ensures r.Some? ==> Decisive(r.value)
    decreases |reported|
  {
    if reported == [] then None
    else if Decisive(reported[|reported| - 1]) then Some(reported[|reported| - 1])
    else LastDecisive(reported[..|reported| - 1])
  }

  lemma {:induction false} StateAfterAppend(current: int, reported: seq<int>, s: int)
    ensures StateAfter(current, reported + [s]) == NextConnectionState(StateAfter(current, reported), s)
    decreases |reported|
  {
    if reported == [] {
      assert reported + [s] == [s];
    } else {
      assert (reported + [s])[1..] == reported[1..] + [s];
      StateAfterAppend(NextConnectionState(current, reported[0]), reported[1..], s);
    }
  }

  /** The connection flag is decided by the most recent CONNECTED or
      DISCONNECTED report alone; when there was none, it keeps its value. */
  lemma {:induction false} StateAfterIsLastDecisive(current: int, reported: seq<int>)
    ensures StateAfter(current, reported) == match LastDecisive(reported) case Some(s) => s case None => current
    decreases |reported|
  {
    if reported != [] {
      var front, last := reported[..|reported| - 1], reported[|reported| - 1];
      assert reported == front + [last];
      StateAfterAppend(current, front, last);
      StateAfterIsLastDecisive(current, front);
    }
  }

  /** Starting DISCONNECTED, the flag only ever holds DISCONNECTED or CONNECTED. */
  lemma StateStaysTwoValued(reported: seq<int>)
    ensures StateAfter(STATE_DISCONNECTED, reported) in {STATE_DISCONNECTED, STATE_CONNECTED}
  {
    StateAfterIsLastDecisive(STATE_DISCONNECTED, reported);
  }

  /** `broadcastUpdate(action, characteristic)` once the intent is built: the
      content characteristic's value goes out as its string value; any other
      characteristic's value goes out as hex, and only when it is neither
      null nor empty. Whether the intent is sent at all is up to the caller:
      `BluetoothLeService` throws first for a non-null content value. */
  function DataBroadcast(action: string, extraKey: string, characteristic: Uuid, value: Option<seq<Byte>>): (b: Broadcast)
    ensures b.action == action
    ensures characteristic == CONTENT_CHARACTERISTIC_UUID ==>
              b.extra == Some(Extra(extraKey, CharacteristicString(value)))
    ensures characteristic != CONTENT_CHARACTERISTIC_UUID ==>
              (b.extra.Some? <==> value.Some? && |value.value| > 0)
    ensures characteristic != CONTENT_CHARACTERISTIC_UUID && b.extra.Some? ==>
              b.extra.value.key == extraKey && b.extra.value.value.HexDump?
              && |b.extra.value.value.hex| == 3 * |value.value| - 1
              && ParseHex(b.extra.value.value.hex) == value
  {
    if characteristic == CONTENT_CHARACTERISTIC_UUID then
      Broadcast(action, Some(Extra(extraKey, CharacteristicString(value))))
    else
      match HexExtra(value)
      case Some(hex) => Broadcast(action, Some(Extra(extraKey, HexDump(hex))))
      case None => Broadcast(action, None)
  }
}
