/**
 * The scan session: a state in {idle, scanning, stopped, error}, the flag
 * `isScanning`, an error message, and three maps keyed by device address —
 * the last raw device record, the last decoded Minew reading, and the time
 * of the last accepted report (the throttle). Hardware and OS answers
 * (permission record, adapter state, a failure to start discovery, each
 * advertisement) and the clock are parameters of the operations.
 */
module BleScanner {
  import opened Wrappers
  import opened MinewParser
  import Perm = BlePermissions

  /** Reports of one address closer together than this are dropped. */
  const MIN_REPORT_INTERVAL_MS := 1000

  /** The signal strength recorded when the advertisement carries none. */
  const DEFAULT_RSSI := -100

  const MSG_POWERED_OFF := "Bluetooth está apagado. Por favor, enciéndelo."
  const MSG_UNAUTHORIZED := "No hay permisos para usar Bluetooth."
  const MSG_NO_PERMISSIONS := "Permisos no concedidos"
  const MSG_ADAPTER_UNAVAILABLE := "Bluetooth no está disponible"
  const SCAN_ERROR_PREFIX := "Error de escaneo: "
  const START_ERROR_PREFIX := "Error al iniciar escaneo: "

  datatype ScanState = Idle | Scanning | Stopped | Error

  /** The adapter states the BLE library reports. */
  datatype AdapterState = Unknown | Resetting | Unsupported | Unauthorized | PoweredOff | PoweredOn

  /** One advertisement as the BLE library delivers it; the manufacturer data already base64-decoded. */
  datatype Advertisement = Advertisement(
    id: string,
    name: Option<string>,
    localName: Option<string>,
    rssi: Option<int>,
    manufacturerData: seq<Byte>,
    txPowerLevel: Option<int>,
    isConnectable: Option<bool>)

  datatype BleDevice = BleDevice(
    id: string,
    name: Option<string>,
    rssi: int,
    manufacturerData: Option<string>,
    txPowerLevel: Option<int>,
    isConnectable: Option<bool>,
    lastSeen: int)

  datatype ScanStatus = ScanStatus(
    state: ScanState,
    isScanning: bool,
    error: Option<string>,
    devicesCount: nat,
    lastUpdate: Option<int>)

  /** `lastReportTime.get(mac) || 0` */
  function LastReport(lastReportTime: map<string, int>, mac: string): int
  {
    if mac in lastReportTime then lastReportTime[mac] else 0
  }

  /** The throttle test of `processDevice`: too soon after the last accepted report. */
  predicate Throttled(lastReportTime: map<string, int>, mac: string, now: int)
  {
    now - LastReport(lastReportTime, mac) < MIN_REPORT_INTERVAL_MS
  }

  /**
   * Accepting a report at `t` closes the window for that address until
   * `t + 1000` and leaves every other address's window as it was.
   */
  lemma ThrottleWindow(m: map<string, int>, mac: string, t: int, other: string, later: int)
    ensures Throttled(m[mac := t], mac, later) <==> later < t + MIN_REPORT_INTERVAL_MS
    ensures other != mac ==> (Throttled(m[mac := t], other, later) <==> Throttled(m, other, later))
  {
  }

  /** `name || localName || null`: an empty name counts as missing. */
  function DisplayName(adv: Advertisement): Option<string>
  {
    if adv.name.Some? && adv.name.value != "" then adv.name
    else if adv.localName.Some? && adv.localName.value != "" then adv.localName
    else None
  }

  /** `b64ToHex(device.manufacturerData)`, starting from the decoded bytes. */
  function ManufacturerHex(adv: Advertisement): (hex: string)
    ensures IsHexString(hex)
  {
    BytesToHex(adv.manufacturerData)
  }

  /** The `BleDevice` record `processDevice` stores for an accepted advertisement. */
  function DeviceRecord(adv: Advertisement, now: int): BleDevice
  {
    var hex := ManufacturerHex(adv);
    BleDevice(adv.id, DisplayName(adv), adv.rssi.GetOr(DEFAULT_RSSI),
              if hex == "" then None else Some(hex), adv.txPowerLevel, adv.isConnectable, now)
  }

  /** The beacon map after an accepted advertisement: updated only when the data decodes. */
  function BeaconsAfter(beacons: map<string, MinewBeacon>, adv: Advertisement, now: int): map<string, MinewBeacon>
  {
    var hex := ManufacturerHex(adv);
    if hex == "" then beacons
    else
      match ParseMinewBeacon(adv.id, adv.rssi.GetOr(DEFAULT_RSSI), hex, now)
      case Some(b) => beacons[adv.id := b]
      case None => beacons
  }

  /**
   * The map invariant: every beacon has a device record and every device a
   * report time; each entry is filed under its own address, and a device was
   * seen no later than that address's last accepted report.
   */
  ghost predicate Consistent(devices: map<string, BleDevice>, beacons: map<string, MinewBeacon>,
                             lastReportTime: map<string, int>)
  {
    && beacons.Keys <= devices.Keys
    && devices.Keys <= lastReportTime.Keys
    && (forall mac :: mac in devices ==> devices[mac].id == mac && devices[mac].lastSeen <= lastReportTime[mac])
    && (forall mac :: mac in beacons ==> beacons[mac].mac == mac)
  }

  /** The beacon map only ever gains or replaces the entry of the reporting address, filed under that address. */
  lemma BeaconsAfterSpec(beacons: map<string, MinewBeacon>, adv: Advertisement, now: int)
    ensures BeaconsAfter(beacons, adv, now).Keys <= beacons.Keys + {adv.id}
    ensures forall mac :: mac in beacons && mac != adv.id ==> BeaconsAfter(beacons, adv, now)[mac] == beacons[mac]
    ensures adv.id in BeaconsAfter(beacons, adv, now) ==>
      BeaconsAfter(beacons, adv, now)[adv.id].mac == adv.id
      || (adv.id in beacons && BeaconsAfter(beacons, adv, now)[adv.id] == beacons[adv.id])
  {
    var hex := ManufacturerHex(adv);
    if hex != "" {
      var parsed := ParseMinewBeacon(adv.id, adv.rssi.GetOr(DEFAULT_RSSI), hex, now);
      assert parsed.Some? ==> parsed.value.mac == adv.id;
    }
  }

  /** Accepting a report keeps the maps consistent: the report time only moves forward. */
  lemma ReportKeepsConsistent(devices: map<string, BleDevice>, beacons: map<string, MinewBeacon>,
                              lastReportTime: map<string, int>, mac: string, now: int)
    requires Consistent(devices, beacons, lastReportTime)
    requires !Throttled(lastReportTime, mac, now)
    ensures Consistent(devices, beacons, lastReportTime[mac := now])
  {
    if mac in devices {
      assert devices[mac].lastSeen <= LastReport(lastReportTime, mac) < now;
    }
  }

  /** Storing an accepted report keeps the maps consistent. */
  lemma StoreKeepsConsistent(devices: map<string, BleDevice>, beacons: map<string, MinewBeacon>,
                             lastReportTime: map<string, int>, adv: Advertisement, now: int)
    requires Consistent(devices, beacons, lastReportTime)
    requires adv.id in lastReportTime && lastReportTime[adv.id] == now
    ensures Consistent(devices[adv.id := DeviceRecord(adv, now)], BeaconsAfter(beacons, adv, now), lastReportTime)
  {
    BeaconsAfterSpec(beacons, adv, now);
  }

  class Scanner {
    var state: ScanState
    var isScanning: bool
    var error: Option<string>
    var devices: map<string, BleDevice>
    var beacons: map<string, MinewBeacon>
    var lastUpdate: Option<int>
    var lastReportTime: map<string, int>
    /** The `minewOnly` option the running discovery callback was created with. */
    var minewOnly: bool

    /**
     * The session invariant: the scanning state only together with the flag;
     * every beacon has a device record and every device a report time; each
     * entry is filed under its own address and was seen no later than that
     * address's last accepted report.
     */
    ghost predicate Valid()
      reads this
    {
      && (state == Scanning ==> isScanning)
      && Consistent(devices, beacons, lastReportTime)
    }

    constructor ()
      ensures Valid()
      ensures state == Idle && !isScanning && error == None && lastUpdate == None
      ensures devices == map[] && beacons == map[] && lastReportTime == map[] && !minewOnly
    {
      state := Idle;
      isScanning := false;
      error := None;
      devices := map[];
      beacons := map[];
      lastUpdate := None;
      lastReportTime := map[];
      minewOnly := false;
    }

    /** `getStatus`: the device count is the size of the device map. */
    function GetStatus(): (s: ScanStatus)
      reads this
      requires Valid()
      ensures s.state == state && s.isScanning == isScanning && s.error == error && s.lastUpdate == lastUpdate
      ensures s.devicesCount == |devices|
      ensures s.state == Scanning ==> s.isScanning
    {
      ScanStatus(state, isScanning, error, |devices|, lastUpdate)
    }

    /** `updateState`: new state, stamped with the time. */
    method UpdateState(newState: ScanState, now: int)
      modifies this
      ensures state == newState && lastUpdate == Some(now)
      ensures isScanning == old(isScanning) && error == old(error) && minewOnly == old(minewOnly)
      ensures devices == old(devices) && beacons == old(beacons) && lastReportTime == old(lastReportTime)
    {
      state := newState;
      lastUpdate := Some(now);
    }

    /** `handleError`: keep the message and move to the error state. */
    method HandleError(message: string, now: int)
      requires Valid()
      modifies this
      ensures Valid()
      ensures state == Error && error == Some(message) && lastUpdate == Some(now)
      ensures isScanning == old(isScanning) && minewOnly == old(minewOnly)
      ensures devices == old(devices) && beacons == old(beacons) && lastReportTime == old(lastReportTime)
    {
      error := Some(message);
      UpdateState(Error, now);
    }

    /**
     * `startScan`. While a scan runs it reports success and touches nothing.
     * Otherwise it requests the permissions (the OS answers are `answers`);
     * missing permissions or an adapter that is not powered on fail
     * without clearing anything; past those checks the maps are emptied, and
     * the scan starts unless starting discovery fails (`startError`).
     */
    method StartScan(platform: Perm.Platform, answers: Perm.RequestAnswers, adapter: AdapterState,
                     minewOnlyOption: bool, startError: Option<string>, now: int) returns (started: bool)
      requires Valid()
      modifies this
      ensures Valid()
      ensures old(isScanning) ==>
        && started && isScanning && state == old(state) && error == old(error) && lastUpdate == old(lastUpdate)
        && devices == old(devices) && beacons == old(beacons) && lastReportTime == old(lastReportTime)
        && minewOnly == old(minewOnly)
      ensures !old(isScanning) && !Perm.Request(platform, answers).allGranted ==>
        && !started && !isScanning && state == Error && error == Some(MSG_NO_PERMISSIONS) && lastUpdate == Some(now)
        && devices == old(devices) && beacons == old(beacons) && lastReportTime == old(lastReportTime)
      ensures !old(isScanning) && Perm.Request(platform, answers).allGranted && adapter != PoweredOn ==>
        && !started && !isScanning && state == Error && error == Some(MSG_ADAPTER_UNAVAILABLE) && lastUpdate == Some(now)
        && devices == old(devices) && beacons == old(beacons) && lastReportTime == old(lastReportTime)
      ensures !old(isScanning) && Perm.Request(platform, answers).allGranted && adapter == PoweredOn ==>
        && devices == map[] && beacons == map[] && lastReportTime == map[] && lastUpdate == Some(now)
        && minewOnly == minewOnlyOption
        && started == startError.None? && isScanning == started
        && (started ==> state == Scanning && error == None)
        && (!started ==> state == Error && error == Some(START_ERROR_PREFIX + startError.value))
    {
      if isScanning {
        return true;
      }
      var permissions := Perm.Request(platform, answers);
      if !permissions.allGranted {
        HandleError(MSG_NO_PERMISSIONS, now);
        return false;
      }
      if adapter != PoweredOn {
        HandleError(MSG_ADAPTER_UNAVAILABLE, now);
        return false;
      }
      devices := map[];
      beacons := map[];
      lastReportTime := map[];
      error := None;
      minewOnly := minewOnlyOption;
      isScanning := true;
      UpdateState(Scanning, now);
      match startError {
        case None =>
          started := true;
        case Some(message) =>
          HandleError(START_ERROR_PREFIX + message, now);
          isScanning := false;
          started := false;
      }
    }

    /**
     * `processDevice`: the per-address throttle first (a dropped report changes
     * nothing), then the report time, then the `minewOnly` filter, then one
     * device upsert and a beacon upsert when the data decodes. It does not look
     * at `isScanning`.
     */
    method ProcessDevice(adv: Advertisement, minewOnlyFilter: bool, now: int)
      requires Valid()
      modifies this
      ensures Valid()
      ensures state == old(state) && isScanning == old(isScanning) && error == old(error) && minewOnly == old(minewOnly)
      ensures Throttled(old(lastReportTime), adv.id, now) ==>
        && lastReportTime == old(lastReportTime) && devices == old(devices) && beacons == old(beacons)
        && lastUpdate == old(lastUpdate)
      ensures !Throttled(old(lastReportTime), adv.id, now) ==> lastReportTime == old(lastReportTime)[adv.id := now]
      ensures !Throttled(old(lastReportTime), adv.id, now) && minewOnlyFilter && !IsMinewBeacon(ManufacturerHex(adv)) ==>
        devices == old(devices) && beacons == old(beacons) && lastUpdate == old(lastUpdate)
      ensures !Throttled(old(lastReportTime), adv.id, now) && !(minewOnlyFilter && !IsMinewBeacon(ManufacturerHex(adv))) ==>
        && devices == old(devices)[adv.id := DeviceRecord(adv, now)]
        && beacons == BeaconsAfter(old(beacons), adv, now)
        && lastUpdate == Some(now)
    {
      var mac := adv.id;
      var lastReport := if mac in lastReportTime then lastReportTime[mac] else 0;
      if now - lastReport < MIN_REPORT_INTERVAL_MS {
        return;
      }
      var hex := ManufacturerHex(adv);
      var store := !(minewOnlyFilter && !IsMinewBeacon(hex));
      RecordReport(mac, now);
      if !store {
        return;
      }
      StoreReport(adv, now);
    }

    /** The report-time update of `processDevice`, once the throttle has let a report through. */
    method RecordReport(mac: string, now: int)
      requires Valid() && !Throttled(lastReportTime, mac, now)
      modifies this
      ensures Valid()
      ensures lastReportTime == old(lastReportTime)[mac := now]
      ensures state == old(state) && isScanning == old(isScanning) && error == old(error) && minewOnly == old(minewOnly)
      ensures devices == old(devices) && beacons == old(beacons) && lastUpdate == old(lastUpdate)
    {
      ReportKeepsConsistent(devices, beacons, lastReportTime, mac, now);
      lastReportTime := lastReportTime[mac := now];
    }

    /** The device upsert and, when the data decodes, the beacon upsert of `processDevice`. */
    method StoreReport(adv: Advertisement, now: int)
      requires Valid() && adv.id in lastReportTime && lastReportTime[adv.id] == now
      modifies this
      ensures Valid()
      ensures devices == old(devices)[adv.id := DeviceRecord(adv, now)]
      ensures beacons == BeaconsAfter(old(beacons), adv, now) && lastUpdate == Some(now)
      ensures state == old(state) && isScanning == old(isScanning) && error == old(error) && minewOnly == old(minewOnly)
      ensures lastReportTime == old(lastReportTime)
    {
      StoreKeepsConsistent(devices, beacons, lastReportTime, adv, now);
      devices := devices[adv.id := DeviceRecord(adv, now)];
      beacons := BeaconsAfter(beacons, adv, now);
      lastUpdate := Some(now);
    }

    /** `stopScan`: nothing when idle; otherwise stopped at once, whatever the hardware answers. */
    method StopScan(now: int)
      requires Valid()
      modifies this
      ensures Valid()
      ensures !old(isScanning) ==> unchanged(this)
      ensures old(isScanning) ==>
        && !isScanning && state == Stopped && lastUpdate == Some(now) && error == old(error)
        && devices == old(devices) && beacons == old(beacons) && lastReportTime == old(lastReportTime)
        && minewOnly == old(minewOnly)
    {
      if !isScanning {
        return;
      }
      isScanning := false;
      UpdateState(Stopped, now);
    }

    /** The discovery callback: an error stops the scan, a device goes to `processDevice`. */
    method OnScanResult(scanError: Option<string>, adv: Option<Advertisement>, now: int)
      requires Valid()
      modifies this
      ensures Valid()
      ensures scanError.Some? ==>
        && error == Some(SCAN_ERROR_PREFIX + scanError.value) && !isScanning
        && state == (if old(isScanning) then Stopped else Error) && lastUpdate == Some(now)
        && devices == old(devices) && beacons == old(beacons) && lastReportTime == old(lastReportTime)
      ensures scanError.None? && adv.None? ==> unchanged(this)
    {
      match scanError {
        case Some(message) =>
          HandleError(SCAN_ERROR_PREFIX + message, now);
          StopScan(now);
        case None =>
          if adv.Some? {
            ProcessDevice(adv.value, minewOnly, now);
          }
      }
    }

    /** `clearDevices`: the three maps emptied, the session untouched. */
    method ClearDevices()
      requires Valid()
      modifies this
      ensures Valid()
      ensures devices == map[] && beacons == map[] && lastReportTime == map[]
      ensures state == old(state) && isScanning == old(isScanning) && error == old(error)
      ensures lastUpdate == old(lastUpdate) && minewOnly == old(minewOnly)
    {
      devices := map[];
      beacons := map[];
      lastReportTime := map[];
    }

    /**
     * The adapter-state listener. Powered off: error, then stop, so a running
     * scan ends stopped with the message kept. Unauthorized: error only, the
     * flag stays as it was. Powered on: back to idle, but only out of the error state.
     */
    method OnAdapterStateChange(adapter: AdapterState, now: int)
      requires Valid()
      modifies this
      ensures Valid()
      ensures devices == old(devices) && beacons == old(beacons) && lastReportTime == old(lastReportTime)
      ensures adapter == PoweredOff ==>
        && error == Some(MSG_POWERED_OFF) && !isScanning && lastUpdate == Some(now)
        && state == (if old(isScanning) then Stopped else Error)
      ensures adapter == Unauthorized ==>
        error == Some(MSG_UNAUTHORIZED) && state == Error && isScanning == old(isScanning) && lastUpdate == Some(now)
      ensures adapter == PoweredOn && old(state) == Error ==>
        error == None && state == Idle && isScanning == old(isScanning) && lastUpdate == Some(now)
      ensures ((adapter == PoweredOn && old(state) != Error) || adapter == Unknown || adapter == Resetting
               || adapter == Unsupported) ==> unchanged(this)
      ensures adapter == PoweredOff || adapter == Unauthorized ==> state != Scanning
    {
      if adapter == PoweredOff {
        HandleError(MSG_POWERED_OFF, now);
        StopScan(now);
      } else if adapter == Unauthorized {
        HandleError(MSG_UNAUTHORIZED, now);
      } else if adapter == PoweredOn && state == Error {
        error := None;
        UpdateState(Idle, now);
      }
    }
  }

  /** A session that only this method can see: the throttle and the start/stop rules in sequence. */
  method SessionScenario(adv: Advertisement, t: int)
    requires t >= 0
  {
    var s := new Scanner();
    var ok := s.StartScan(Perm.IOS, Perm.Threw, PoweredOn, false, None, t);
    assert ok && s.state == Scanning && s.isScanning;
    s.ProcessDevice(adv, false, t + 5000);
    assert adv.id in s.devices && s.lastReportTime[adv.id] == t + 5000;
    s.ProcessDevice(adv, false, t + 5999);
    assert s.lastReportTime[adv.id] == t + 5000;
    s.ProcessDevice(adv, false, t + 6000);
    assert s.lastReportTime[adv.id] == t + 6000 && s.devices[adv.id].lastSeen == t + 6000;
    ok := s.StartScan(Perm.IOS, Perm.Threw, PoweredOff, false, None, t + 7000);
    assert ok && adv.id in s.devices;
    s.OnAdapterStateChange(PoweredOff, t + 8000);
    assert s.state == Stopped && !s.isScanning && s.error == Some(MSG_POWERED_OFF);
    s.StopScan(t + 9000);
    assert s.state == Stopped && s.lastUpdate == Some(t + 8000);
    ok := s.StartScan(Perm.IOS, Perm.Threw, PoweredOff, false, None, t + 10000);
    assert !ok && s.state == Error && adv.id in s.devices;
  }
}
