/** Fixed event sequences on the Activity model, each proving an outcome that pins down a
    behaviour of MainActivity that a tidier connection lifecycle would not
    have: an explicit disconnect does not cancel the automatic reconnect,
    rediscovery appends to the lists again, and callbacks or reconnects
    belonging to an earlier connection are not told apart from current ones. */
module Scenarios {
  import opened Ble
  import opened MainActivity

  /** A fresh scan lists each reported device once, in first-report order,
      however often it is reported; results without a device are skipped. */
  method ScanListsEachDeviceOnce(d1: Device, d2: Device) returns (a: Activity)
    requires d1 != d2
    ensures a.bleDevices == [d1, d2] && a.effects == [StartLeScan]
  {
    a := new Activity();
    a.StartScan(true);
    a.OnScanResult(Some(ScanResult(Some(d1))));
    a.OnScanResult(None);
    a.OnScanResult(Some(ScanResult(Some(d2))));
    a.OnScanResult(Some(ScanResult(None)));
    assert a.bleDevices == [d1, d2];
    a.OnScanResult(Some(ScanResult(Some(d1))));
  }

  /** The user disconnects; when the platform then reports the link down,
      a reconnect to the same device is still scheduled, and it fires. */
  method ExplicitDisconnectStillReconnects(d: Device, h: Gatt, h2: Gatt) returns (a: Activity)
    requires h.device == d && h2.device == d
    ensures a.selectedDevice == Some(d) && a.gatt == Some(h2) && !a.isConnected
    ensures a.effects == [ConnectGatt(d), DiscoverServices(h), DisconnectGatt(h), CloseGatt(h),
                          ScheduleReconnect(d, RECONNECT_DELAY_MS), ConnectGatt(d)]
    ensures a.pendingReconnects == []
  {
    a := new Activity();
    a.ConnectToDevice(d, Some(h));
    a.OnConnectionStateChange(Some(h), GATT_SUCCESS, STATE_CONNECTED);
    a.Disconnect();
    a.OnConnectionStateChange(Some(h), GATT_SUCCESS, STATE_DISCONNECTED);
    assert a.pendingReconnects == [d];
    a.ReconnectTimerFires(0, Some(h2));
  }

  /** A link loss and the automatic reconnect keep the services and
      characteristics the first discovery recorded. */
  method ReconnectKeepsDiscoveredLists(d: Device, h: Gatt, h2: Gatt, ss: seq<Service>)
    returns (a: Activity)
    requires h.device == d && h2.device == d
    ensures a.gatt == Some(h2) && !a.isConnected
    ensures a.services == ss && a.characteristics == Flatten(ss)
  {
    a := new Activity();
    a.ConnectToDevice(d, Some(h));
    a.OnServicesDiscovered(Some(h), GATT_SUCCESS, ss);
    a.OnConnectionStateChange(Some(h), GATT_SUCCESS, STATE_DISCONNECTED);
    a.ReconnectTimerFires(0, Some(h2));
  }

  /** Discovering the same services again, without an explicit disconnect in
      between, records every service and characteristic a second time. */
  method RediscoveryAppendsAgain(d: Device, h: Gatt, ss: seq<Service>) returns (a: Activity)
    requires h.device == d
    ensures a.services == ss + ss
    ensures a.characteristics == Flatten(ss) + Flatten(ss)
  {
    a := new Activity();
    a.ConnectToDevice(d, Some(h));
    a.OnServicesDiscovered(Some(h), GATT_SUCCESS, ss);
    assert a.services == ss && a.characteristics == Flatten(ss);
    a.OnServicesDiscovered(Some(h), GATT_SUCCESS, ss);
  }

  /** A discovery reported on the handle of an earlier connection is still
      recorded after the user has connected to another device. */
  method LateDiscoveryIsRecorded(d1: Device, d2: Device, h1: Gatt, h2: Gatt, ss: seq<Service>)
    returns (a: Activity)
    requires h1.device == d1 && h2.device == d2 && d1 != d2
    ensures a.selectedDevice == Some(d2) && a.gatt == Some(h2)
    ensures a.services == ss
  {
    a := new Activity();
    a.ConnectToDevice(d1, Some(h1));
    a.ConnectToDevice(d2, Some(h2));
    a.OnServicesDiscovered(Some(h1), GATT_SUCCESS, ss);
  }

  /** A link loss reported on the handle of an earlier connection closes that
      handle and schedules a reconnect to the device selected now. */
  method LateLinkLossReconnectsCurrentDevice(d1: Device, d2: Device, h1: Gatt, h2: Gatt)
    returns (a: Activity)
    requires h1.device == d1 && h2.device == d2 && d1 != d2
    ensures a.selectedDevice == Some(d2) && a.gatt == Some(h2)
    ensures a.pendingReconnects == [d2]
    ensures a.effects == [ConnectGatt(d1), ConnectGatt(d2), CloseGatt(h1),
                          ScheduleReconnect(d2, RECONNECT_DELAY_MS)]
  {
    a := new Activity();
    a.ConnectToDevice(d1, Some(h1));
    a.ConnectToDevice(d2, Some(h2));
    a.OnConnectionStateChange(Some(h1), GATT_SUCCESS, STATE_DISCONNECTED);
  }

  /** A reconnect scheduled for one device fires after the user has chosen
      another: the handle then belongs to the earlier device. */
  method StaleReconnectReplacesHandle(d1: Device, d2: Device, h1: Gatt, h2: Gatt, h3: Gatt)
    returns (a: Activity)
    requires h1.device == d1 && h2.device == d2 && h3.device == d1 && d1 != d2
    ensures a.selectedDevice == Some(d2)
    ensures a.gatt == Some(h3) && a.gatt.value.device != d2
  {
    a := new Activity();
    a.ConnectToDevice(d1, Some(h1));
    a.OnConnectionStateChange(Some(h1), GATT_SUCCESS, STATE_DISCONNECTED);
    a.ConnectToDevice(d2, Some(h2));
    a.ReconnectTimerFires(0, Some(h3));
  }
}
