/** Values the Android BLE platform hands to the app: devices, scan results,
    GATT services and characteristics, and GATT connection handles.
    Only what the app reads from them is modelled; the platform objects'
    own behaviour is foreign, except the two documented lookups
    BluetoothGatt.getService and BluetoothGattService.getCharacteristic,
    which return the FIRST entry carrying the requested UUID. */
module Ble {

  datatype Option<T> = None | Some(value: T)

  /** A java.util.UUID: two 64-bit halves, compared by value. */
  datatype Uuid = Uuid(mostSigBits: bv64, leastSigBits: bv64)

  /** A BluetoothDevice; its equality (used by `contains`) is by hardware address. */
  datatype Device = Device(address: string)

  /** A ScanResult; the platform may hand over no device. */
  datatype ScanResult = ScanResult(device: Option<Device>)

  /** A BluetoothGattCharacteristic: its UUID and the instance id that tells
      two characteristics with the same UUID apart. */
  datatype Characteristic = Characteristic(uuid: Uuid, instanceId: nat)

  /** A BluetoothGattService with its characteristics in platform order. */
  datatype Service = Service(uuid: Uuid, instanceId: nat, characteristics: seq<Characteristic>)

  /** A BluetoothGatt handle returned by connectGatt: the remote device and
      a session number that tells two connections to one device apart. */
  datatype Gatt = Gatt(device: Device, session: nat)

  // BluetoothProfile.STATE_DISCONNECTED, BluetoothProfile.STATE_CONNECTED, BluetoothGatt.GATT_SUCCESS
  const STATE_DISCONNECTED: int := 0
  const STATE_CONNECTED: int := 2
  const GATT_SUCCESS: int := 0

  /** BluetoothGatt.getService(u): the first service whose UUID is `u`, if any. */
  function FindService(ss: seq<Service>, u: Uuid): (r: Option<Service>)
    ensures r.Some? <==> exists i :: 0 <= i < |ss| && ss[i].uuid == u
    ensures r.Some? ==> exists i :: 0 <= i < |ss| && ss[i] == r.value && ss[i].uuid == u &&
                                     forall j :: 0 <= j < i ==> ss[j].uuid != u
  {
    if ss == [] then None
    else if ss[0].uuid == u then Some(ss[0])
    else
      var r := FindService(ss[1..], u);
      assert forall i :: 1 <= i < |ss| ==> ss[i] == ss[1..][i - 1];
      r
  }

  /** BluetoothGattService.getCharacteristic(u): the first characteristic
      whose UUID is `u`, if any. */
  function FindCharacteristic(cs: seq<Characteristic>, u: Uuid): (r: Option<Characteristic>)
    ensures r.Some? <==> exists k :: 0 <= k < |cs| && cs[k].uuid == u
    ensures r.Some? ==> exists k :: 0 <= k < |cs| && cs[k] == r.value && cs[k].uuid == u &&
                                     forall j :: 0 <= j < k ==> cs[j].uuid != u
  {
    if cs == [] then None
    else if cs[0].uuid == u then Some(cs[0])
    else
      var r := FindCharacteristic(cs[1..], u);
      assert forall k :: 1 <= k < |cs| ==> cs[k] == cs[1..][k - 1];
      r
  }
}
