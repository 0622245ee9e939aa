/** The BLE bookkeeping of MainActivity: the discovered-device list, the
    selected device, the GATT handle, the connection flag and the lists of
    discovered services and characteristics, changed by three user commands
    (startScan, connectToDevice, disconnect) and by the platform callbacks
    (onScanResult, onConnectionStateChange, onServicesDiscovered, and the
    delayed reconnect coroutine firing).

    Every call into the Android BLE stack is recorded as a requested Effect
    appended to a log; what the platform then does is not modelled. */
module MainActivity {
  import opened Ble

  const SERVICE_UUID: Uuid := Uuid(0xA07498CA_AD5B_474E, 0x940D_16F1FBE7E8CC)
  const CHARACTERISTIC_UUID: Uuid := Uuid(0x51FF12BB_3ED8_46E5, 0xB4F9_D64E2FEC021B)
  /** The delay, in milliseconds, before a scheduled reconnect calls connectGatt. */
  const RECONNECT_DELAY_MS: nat := 5000

  /** A call the activity makes into the platform. */
  datatype Effect =
    | StartLeScan                                  // bluetoothLeScanner.startScan(callback)
    | ConnectGatt(device: Device)                  // device.connectGatt(activity, false, gattCallback)
    | DisconnectGatt(gatt: Gatt)                   // gatt.disconnect()
    | DiscoverServices(gatt: Gatt)                 // gatt.discoverServices()
    | CloseGatt(gatt: Gatt)                        // gatt.close()
    | ScheduleReconnect(device: Device, delayMs: nat)  // launch { delay(..); connectGatt(..) }
    | EnableNotification(gatt: Gatt, characteristic: Characteristic)  // setCharacteristicNotification(c, true)
    | ReadCharacteristic(gatt: Gatt, characteristic: Characteristic)  // readCharacteristic(c)

  predicate NoDuplicates<T(==)>(s: seq<T>) {
    forall i, j :: 0 <= i < j < |s| ==> s[i] != s[j]
  }

  /** How many characteristics the services hold altogether. */
  function CharacteristicCount(ss: seq<Service>): nat {
    if ss == [] then 0 else |ss[0].characteristics| + CharacteristicCount(ss[1..])
  }

  /** The characteristics of every service, service by service, each in its
      own order: what the nested forEach loops of onServicesDiscovered add. */
  function Flatten(ss: seq<Service>): seq<Characteristic> {
    if ss == [] then [] else ss[0].characteristics + Flatten(ss[1..])
  }

  /** The nested loops add as many characteristics as the services hold. */
  lemma {:induction false} FlattenLength(ss: seq<Service>)
    ensures |Flatten(ss)| == CharacteristicCount(ss)
  {
    if ss != [] {
      FlattenLength(ss[1..]);
    }
  }

  lemma {:induction false} FlattenAppend(a: seq<Service>, b: seq<Service>)
    ensures Flatten(a + b) == Flatten(a) + Flatten(b)
  {
    if a == [] {
      assert a + b == b;
    } else {
      assert (a + b)[1..] == a[1..] + b;
      FlattenAppend(a[1..], b);
    }
  }

  /** Flattening one more service adds that service's characteristics at the end. */
  lemma FlattenSnoc(ss: seq<Service>, i: nat)
    requires i < |ss|
    ensures Flatten(ss[..i + 1]) == Flatten(ss[..i]) + ss[i].characteristics
  {
    assert ss[..i + 1] == ss[..i] + [ss[i]];
    FlattenAppend(ss[..i], [ss[i]]);
    assert Flatten([ss[i]]) == ss[i].characteristics + Flatten([]);
  }

  /** A characteristic is in the flattened list exactly when some service holds it. */
  lemma {:induction false} FlattenMember(ss: seq<Service>, c: Characteristic)
    ensures c in Flatten(ss) <==> exists i :: 0 <= i < |ss| && c in ss[i].characteristics
  {
    if ss != [] {
      FlattenMember(ss[1..], c);
      assert forall i :: 1 <= i < |ss| ==> ss[i] == ss[1..][i - 1];
      if c in Flatten(ss[1..]) {
        var i :| 0 <= i < |ss[1..]| && c in ss[1..][i].characteristics;
        assert c in ss[i + 1].characteristics;
      }
    }
  }

  /** The k-th characteristic of the i-th service sits in the flattened list
      right after the characteristics of the services before it. */
  lemma {:induction false} FlattenAt(ss: seq<Service>, i: nat, k: nat)
    requires i < |ss| && k < |ss[i].characteristics|
    ensures CharacteristicCount(ss[..i]) + k < |Flatten(ss)|
    ensures Flatten(ss)[CharacteristicCount(ss[..i]) + k] == ss[i].characteristics[k]
  {
    FlattenLength(ss[..i]);
    assert ss == ss[..i] + ss[i..];
    FlattenAppend(ss[..i], ss[i..]);
    assert ss[i..][0] == ss[i];
  }

  /** True when `i` is the first service in `ss` carrying SERVICE_UUID, which
      is the one getService(SERVICE_UUID) returns. */
  predicate IsPrimaryService(ss: seq<Service>, i: int) {
    0 <= i < |ss| && ss[i].uuid == SERVICE_UUID &&
    forall j :: 0 <= j < i ==> ss[j].uuid != SERVICE_UUID
  }

  /** True when `k` is the first characteristic in `cs` carrying
      CHARACTERISTIC_UUID, which is the one getCharacteristic returns. */
  predicate IsPrimaryCharacteristic(cs: seq<Characteristic>, k: int) {
    0 <= k < |cs| && cs[k].uuid == CHARACTERISTIC_UUID &&
    forall j :: 0 <= j < k ==> cs[j].uuid != CHARACTERISTIC_UUID
  }

  /** getService(SERVICE_UUID)?.getCharacteristic(CHARACTERISTIC_UUID) on
      the discovered services `ss`. */
  function PrimaryCharacteristic(ss: seq<Service>): Option<Characteristic> {
    match FindService(ss, SERVICE_UUID)
    case None => None
    case Some(s) => FindCharacteristic(s.characteristics, CHARACTERISTIC_UUID)
  }

  /** The primary characteristic exists exactly when the discovered services
      contain SERVICE_UUID and the first such service contains
      CHARACTERISTIC_UUID; it is then the first characteristic with that UUID
      in the first service with SERVICE_UUID, and one of the discovered
      characteristics. */
  lemma PrimaryCharacteristicFound(ss: seq<Service>)
    ensures PrimaryCharacteristic(ss).Some? <==>
              exists i :: IsPrimaryService(ss, i) &&
                exists k :: 0 <= k < |ss[i].characteristics| &&
                            ss[i].characteristics[k].uuid == CHARACTERISTIC_UUID
    ensures PrimaryCharacteristic(ss).Some? ==>
              (exists i, k :: IsPrimaryService(ss, i) && IsPrimaryCharacteristic(ss[i].characteristics, k) &&
                              PrimaryCharacteristic(ss).value == ss[i].characteristics[k]) &&
              PrimaryCharacteristic(ss).value in Flatten(ss)
  {
    var r := PrimaryCharacteristic(ss);
    match FindService(ss, SERVICE_UUID)
    case None =>
    case Some(s) =>
      var i :| IsPrimaryService(ss, i) && ss[i] == s;
      if r.Some? {
        var k :| IsPrimaryCharacteristic(s.characteristics, k) && s.characteristics[k] == r.value;
        FlattenMember(ss, r.value);
      }
  }

  /** The requests onServicesDiscovered makes on handle `h`: enable
      notification on, then read, the primary characteristic; none when the
      services lack it. */
  function PrimaryRequests(h: Gatt, ss: seq<Service>): (r: seq<Effect>)
    ensures |r| == 2 || r == []
    ensures r != [] <==> PrimaryCharacteristic(ss).Some?
    ensures r != [] ==> r[0].EnableNotification? && r[1].ReadCharacteristic? &&
                        r[0].gatt == r[1].gatt == h &&
                        r[0].characteristic == r[1].characteristic == PrimaryCharacteristic(ss).value
  {
    match PrimaryCharacteristic(ss)
    case Some(c) => [EnableNotification(h, c), ReadCharacteristic(h, c)]
    case None => []
  }

  /** The state MainActivity keeps about BLE, plus the log of platform calls
      it has requested and the reconnect coroutines it has launched. */
  class Activity {
    var gatt: Option<Gatt>
    var selectedDevice: Option<Device>
    var isConnected: bool
    var bleDevices: seq<Device>
    var characteristics: seq<Characteristic>
    var services: seq<Service>
    /** Every platform call requested so far, oldest first. */
    var effects: seq<Effect>
    /** The devices captured by reconnect coroutines still waiting out their delay. */
    var pendingReconnects: seq<Device>

    /** What every handler keeps true: the device list holds no device twice,
        the characteristics are those of the recorded services in order, and
        no handle or reconnect exists before a device has been selected. */
    ghost predicate Valid()
      reads this
    {
      NoDuplicates(bleDevices) &&
      characteristics == Flatten(services) &&
      (selectedDevice.None? ==> gatt.None? && pendingReconnects == [])
    }

    constructor ()
      ensures Valid()
      ensures gatt.None? && selectedDevice.None? && !isConnected
      ensures bleDevices == [] && characteristics == [] && services == []
      ensures effects == [] && pendingReconnects == []
    {
      gatt := None;
      selectedDevice := None;
      isConnected := false;
      bleDevices := [];
      characteristics := [];
      services := [];
      effects := [];
      pendingReconnects := [];
    }

    /** startScan: forget the devices found so far and start scanning when
        the adapter offers a scanner (`scannerPresent`). */
    method StartScan(scannerPresent: bool)
      requires Valid()
      modifies this`bleDevices, this`effects
      ensures Valid()
      ensures bleDevices == []
      ensures effects == old(effects) + (if scannerPresent then [StartLeScan] else [])
    {
      bleDevices := [];
      if scannerPresent {
        effects := effects + [StartLeScan];
      }
    }

    /** onScanResult: record the result's device unless it is already listed. */
    method OnScanResult(result: Option<ScanResult>)
      requires Valid()
      modifies this`bleDevices
      ensures Valid()
      ensures result.None? || result.value.device.None? ==> bleDevices == old(bleDevices)
      ensures result.Some? && result.value.device.Some? ==>
                var device := result.value.device.value;
                (device in old(bleDevices) ==> bleDevices == old(bleDevices)) &&
                (device !in old(bleDevices) ==> bleDevices == old(bleDevices) + [device])
    {
      if result.Some? && result.value.device.Some? {
        var device := result.value.device.value;
        if device !in bleDevices {
          bleDevices := bleDevices + [device];
        }
      }
    }

    /** connectToDevice: select `device` and open a connection to it;
        `handle` is what connectGatt returned. */
    method ConnectToDevice(device: Device, handle: Option<Gatt>)
      requires Valid()
      requires handle.Some? ==> handle.value.device == device
      modifies this`selectedDevice, this`gatt, this`effects
      ensures Valid()
      ensures selectedDevice == Some(device) && gatt == handle
      ensures effects == old(effects) + [ConnectGatt(device)]
    {
      selectedDevice := Some(device);
      effects := effects + [ConnectGatt(device)];
      gatt := handle;
    }

    /** disconnect: drop the discovered services and characteristics, ask the
        current handle (if any) to disconnect and clear the flag. The handle,
        the selected device, the device list and any pending reconnect stay. */
    method Disconnect()
      requires Valid()
      modifies this`characteristics, this`services, this`effects, this`isConnected
      ensures Valid()
      ensures characteristics == [] && services == [] && !isConnected
      ensures effects == old(effects) + (if gatt.Some? then [DisconnectGatt(gatt.value)] else [])
      ensures pendingReconnects == old(pendingReconnects) && gatt == old(gatt)
      ensures bleDevices == old(bleDevices) && selectedDevice == old(selectedDevice)
    {
      characteristics := [];
      services := [];
      if gatt.Some? {
        effects := effects + [DisconnectGatt(gatt.value)];
      }
      isConnected := false;
    }

    /** reconnect: when a device is selected, launch a coroutine that waits
        RECONNECT_DELAY_MS and then connects to that device again. */
    method Reconnect()
      requires Valid()
      modifies this`effects, this`pendingReconnects
      ensures Valid()
      ensures selectedDevice.Some? ==>
                pendingReconnects == old(pendingReconnects) + [selectedDevice.value] &&
                effects == old(effects) + [ScheduleReconnect(selectedDevice.value, RECONNECT_DELAY_MS)]
      ensures selectedDevice.None? ==>
                pendingReconnects == old(pendingReconnects) && effects == old(effects)
    {
      if selectedDevice.Some? {
        var device := selectedDevice.value;
        pendingReconnects := pendingReconnects + [device];
        effects := effects + [ScheduleReconnect(device, RECONNECT_DELAY_MS)];
      }
    }

    /** The i-th pending reconnect coroutine finishes its delay: it connects to
        the device it captured and overwrites the handle with what connectGatt
        returned (`handle`), whichever device is selected by then. */
    method ReconnectTimerFires(i: nat, handle: Option<Gatt>)
      requires Valid()
      requires i < |pendingReconnects|
      requires handle.Some? ==> handle.value.device == pendingReconnects[i]
      modifies this`gatt, this`effects, this`pendingReconnects
      ensures Valid()
      ensures gatt == handle
      ensures effects == old(effects) + [ConnectGatt(old(pendingReconnects)[i])]
      ensures pendingReconnects == old(pendingReconnects)[..i] + old(pendingReconnects)[i + 1..]
    {
      var device := pendingReconnects[i];
      pendingReconnects := pendingReconnects[..i] + pendingReconnects[i + 1..];
      effects := effects + [ConnectGatt(device)];
      gatt := handle;
    }

    /** onConnectionStateChange on the handle `g` the platform passes in:
        connected sets the flag and asks `g` to discover services;
        disconnected clears the flag, closes `g` and calls reconnect;
        any other state changes nothing. */
    method OnConnectionStateChange(g: Option<Gatt>, status: int, newState: int)
      requires Valid()
      modifies this`isConnected, this`effects, this`pendingReconnects
      ensures Valid()
      ensures newState == STATE_CONNECTED ==>
                isConnected && pendingReconnects == old(pendingReconnects) &&
                effects == old(effects) + (if g.Some? then [DiscoverServices(g.value)] else [])
      ensures newState == STATE_DISCONNECTED ==>
                !isConnected &&
                pendingReconnects == old(pendingReconnects) +
                  (if selectedDevice.Some? then [selectedDevice.value] else []) &&
                effects == old(effects) + (if g.Some? then [CloseGatt(g.value)] else []) +
                  (if selectedDevice.Some? then [ScheduleReconnect(selectedDevice.value, RECONNECT_DELAY_MS)] else [])
      ensures newState != STATE_CONNECTED && newState != STATE_DISCONNECTED ==>
                isConnected == old(isConnected) && effects == old(effects) &&
                pendingReconnects == old(pendingReconnects)
    {
      if newState == STATE_CONNECTED {
        isConnected := true;
        if g.Some? {
          effects := effects + [DiscoverServices(g.value)];
        }
      } else if newState == STATE_DISCONNECTED {
        isConnected := false;
        if g.Some? {
          effects := effects + [CloseGatt(g.value)];
        }
        Reconnect();
      }
    }

    /** onServicesDiscovered on the handle `g`, whose service list is
        `gattServices`: on success append every service and, service by
        service, its characteristics (nothing is cleared first), then enable
        notification on and read the primary characteristic when `g` has one.
        On failure nothing changes. */
    method OnServicesDiscovered(g: Option<Gatt>, status: int, gattServices: seq<Service>)
      requires Valid()
      modifies this`services, this`characteristics, this`effects
      ensures Valid()
      ensures status == GATT_SUCCESS && g.Some? ==>
                services == old(services) + gattServices &&
                characteristics == old(characteristics) + Flatten(gattServices) &&
                |characteristics| == |old(characteristics)| + CharacteristicCount(gattServices) &&
                effects == old(effects) + PrimaryRequests(g.value, gattServices)
      ensures status != GATT_SUCCESS || g.None? ==>
                services == old(services) && characteristics == old(characteristics) &&
                effects == old(effects)
    {
      if status == GATT_SUCCESS && g.Some? {
        AppendDiscovered(gattServices);
        FlattenAppend(old(services), gattServices);
        FlattenLength(gattServices);
        var primary := PrimaryCharacteristic(gattServices);
        if primary.Some? {
          effects := effects + [EnableNotification(g.value, primary.value),
                                ReadCharacteristic(g.value, primary.value)];
        }
      }
    }

    /** The nested forEach loops of onServicesDiscovered: each service, then
        each of its characteristics, appended one at a time. */
    method AppendDiscovered(gattServices: seq<Service>)
      modifies this`services, this`characteristics
      ensures services == old(services) + gattServices
      ensures characteristics == old(characteristics) + Flatten(gattServices)
    {
      ghost var services0, characteristics0 := services, characteristics;
      var i := 0;
      while i < |gattServices|
        invariant 0 <= i <= |gattServices|
        invariant services == services0 + gattServices[..i]
        invariant characteristics == characteristics0 + Flatten(gattServices[..i])
      {
        var service := gattServices[i];
        services := services + [service];
        var j := 0;
        while j < |service.characteristics|
          invariant 0 <= j <= |service.characteristics|
          invariant services == services0 + gattServices[..i] + [service]
          invariant characteristics ==
                      characteristics0 + Flatten(gattServices[..i]) + service.characteristics[..j]
        {
          characteristics := characteristics + [service.characteristics[j]];
          j := j + 1;
        }
        assert service.characteristics[..j] == service.characteristics;
        assert gattServices[..i + 1] == gattServices[..i] + [service];
        FlattenSnoc(gattServices, i);
        i := i + 1;
      }
      assert gattServices[..i] == gattServices;
    }
  }
}
