/**
 * Decoder for the manufacturer data that Minew beacons put in their BLE
 * advertisements. The data arrives as a string of hex digits; the first two
 * bytes are the vendor id 0xFFE1 stored little-endian (`E1 FF`), byte 2 is the
 * frame type and byte 3 the product model. The frame type decides which of the
 * optional fields the remaining bytes fill in, each only when the buffer is long
 * enough to hold it.
 */
module MinewParser {
  import opened Wrappers
  import opened Text

  type Byte = b: int | 0 <= b < 256

  const MINEW_MANUFACTURER_ID: int := 0xFFE1

  // Frame type tags. INFO and TEMPERATURE_HUMIDITY share the value 0xA1; the
  // dispatch only ever tests TEMPERATURE_HUMIDITY, so INFO has no effect.
  const FRAME_INFO: Byte := 0xA1
  const FRAME_IBEACON: Byte := 0xA7
  const FRAME_TEMPERATURE_HUMIDITY: Byte := 0xA1
  const FRAME_ACCELERATION: Byte := 0xA2
  const FRAME_BATTERY: Byte := 0xA8
  const FRAME_DEVICE_INFO: Byte := 0xA0

  datatype Acceleration = Acceleration(x: int, y: int, z: int)

  /** One decoded advertisement. Temperature and humidity are exact rationals here. */
  datatype MinewBeacon = MinewBeacon(
    mac: string,
    rssi: int,
    frameType: Byte,
    productModel: Byte,
    batteryLevel: Option<Byte>,
    temperature: Option<real>,
    humidity: Option<real>,
    accelerometer: Option<Acceleration>,
    uuid: Option<string>,
    major: Option<int>,
    minor: Option<int>,
    rawData: string,
    timestamp: int)

  predicate IsKnownFrame(t: Byte)
  {
    t == FRAME_DEVICE_INFO || t == FRAME_TEMPERATURE_HUMIDITY || t == FRAME_ACCELERATION
    || t == FRAME_IBEACON || t == FRAME_BATTERY
  }

  /** None of the frame-dependent fields is set. */
  predicate NoOptionalFields(b: MinewBeacon)
  {
    && b.batteryLevel.None? && b.temperature.None? && b.humidity.None?
    && b.accelerometer.None? && b.uuid.None? && b.major.None? && b.minor.None?
  }

  // ---------------------------------------------------------------------------
  // Hex rendering and reading

  predicate IsHexString(h: string)
  {
    forall k :: 0 <= k < |h| ==> IsHexDigit(h[k])
  }

  /** `b.toString(16).padStart(2, '0')`: the high digit, then the low one, in lower case. */
  function ByteHex(b: Byte): (h: string)
    ensures |h| == 2 && IsHexString(h) && !('A' <= h[0] <= 'F') && !('A' <= h[1] <= 'F')
  {
    [LowerHexDigit(b / 16), LowerHexDigit(b % 16)]
  }

  /** The hex rendering of `b64ToHex`: two digits for every byte, joined. */
  function BytesToHex(bs: seq<Byte>): (h: string)
    ensures |h| == 2 * |bs|
    ensures IsHexString(h)
    ensures forall k :: 0 <= k < |h| ==> !('A' <= h[k] <= 'F')
  {
    if bs == [] then [] else ByteHex(bs[0]) + BytesToHex(bs[1..])
  }

  /** Byte `k` is rendered at positions `2k` and `2k + 1`, high digit first. */
  lemma {:induction false} BytesToHexAt(bs: seq<Byte>, k: nat)
    requires k < |bs|
    ensures BytesToHex(bs)[2 * k] == LowerHexDigit(bs[k] / 16)
    ensures BytesToHex(bs)[2 * k + 1] == LowerHexDigit(bs[k] % 16)
  {
    if k > 0 {
      BytesToHexAt(bs[1..], k - 1);
      assert BytesToHex(bs) == ByteHex(bs[0]) + BytesToHex(bs[1..]);
    }
  }

  /** `parseInt(hex.substr(i, 2), 16)`: two digits, or the last lone digit of an odd-length string. */
  function PairValue(h: string, i: nat): Byte
    requires IsHexString(h) && i < |h|
  {
    if i + 1 < |h| then 16 * HexValue(h[i]) + HexValue(h[i + 1]) else HexValue(h[i])
  }

  /** The bytes `hexToBytes` produces: one per pair of digits. */
  function DecodeHex(h: string): (bs: seq<Byte>)
    requires IsHexString(h)
    ensures |bs| == (|h| + 1) / 2
  {
    seq((|h| + 1) / 2, k requires 0 <= k < (|h| + 1) / 2 => PairValue(h, 2 * k))
  }

  /** `hexToBytes`: walks the string two digits at a time and appends each value. */
  method HexToBytes(hex: string) returns (bytes: seq<Byte>)
    requires IsHexString(hex)
    ensures bytes == DecodeHex(hex)
  {
    bytes := [];
    var i := 0;
    while i < |hex|
      invariant 0 <= i <= |hex| + 1 && i % 2 == 0
      invariant bytes == seq(i / 2, k requires 0 <= k < i / 2 => PairValue(hex, 2 * k))
    {
      var v := if i + 1 < |hex| then 16 * HexValue(hex[i]) + HexValue(hex[i + 1]) else HexValue(hex[i]);
      bytes := bytes + [v];
      i := i + 2;
    }
  }

  /** Reading back the rendering of a byte sequence gives the same bytes. */
  lemma DecodeBytesToHex(bs: seq<Byte>)
    ensures DecodeHex(BytesToHex(bs)) == bs
  {
    var h := BytesToHex(bs);
    forall k | 0 <= k < |bs|
      ensures DecodeHex(h)[k] == bs[k]
    {
      PairOfByte(bs, k);
    }
  }

  /** The two digits byte `k` is rendered as read back as that byte. */
  lemma PairOfByte(bs: seq<Byte>, k: nat)
    requires k < |bs|
    ensures DecodeHex(BytesToHex(bs))[k] == bs[k]
  {
    var h, b := BytesToHex(bs), bs[k];
    BytesToHexAt(bs, k);
    assert PairValue(h, 2 * k) == 16 * (b / 16) + b % 16;
  }

  /** Upper-casing hex digits does not change the bytes they denote. */
  lemma DecodeUpper(h: string)
    requires IsHexString(h)
    ensures IsHexString(Upper(h)) && DecodeHex(Upper(h)) == DecodeHex(h)
  {
    assert IsHexString(Upper(h));
    forall k | 0 <= k < |h|
      ensures HexValue(Upper(h)[k]) == HexValue(h[k])
    {
    }
  }

  // ---------------------------------------------------------------------------
  // Integer fields

  /** `b0 | (b1 << 8)`: the two bit ranges are disjoint, so the OR is a sum. */
  function LittleEndian16(b0: Byte, b1: Byte): int
  {
    b0 + 256 * b1
  }

  /** `(hi << 8) | lo`: an unsigned big-endian 16-bit value. */
  function Word16(hi: Byte, lo: Byte): (w: int)
    ensures 0 <= w <= 65535
    ensures w / 256 == hi && w % 256 == lo
  {
    256 * hi + lo
  }

  /** `raw > 32767 ? raw - 65536 : raw`: the same 16 bits read as two's complement. */
  function Signed16(hi: Byte, lo: Byte): (v: int)
    ensures -32768 <= v <= 32767
    ensures (v + 65536) % 65536 == Word16(hi, lo)
  {
    var raw := Word16(hi, lo);
    if raw > 32767 then raw - 65536 else raw
  }

  // ---------------------------------------------------------------------------
  // The decoder

  /** `isMinewBeacon`: at least four digits and the vendor id 0xFFE1 in the first two bytes. */
  function IsMinewBeacon(hex: string): (b: bool)
    requires IsHexString(hex)
    ensures b <==> |hex| >= 4 && DecodeHex(hex)[0] == 0xE1 && DecodeHex(hex)[1] == 0xFF
  {
    if |hex| < 4 then false
    else
      var bytes := DecodeHex(hex);
      if |bytes| < 2 then false
      else LittleEndian16(bytes[0], bytes[1]) == MINEW_MANUFACTURER_ID
  }

  /** 0xA0: byte 4 is the battery level. */
  function ParseDeviceInfoFrame(bytes: seq<Byte>, beacon: MinewBeacon): MinewBeacon
  {
    if |bytes| > 4 then beacon.(batteryLevel := Some(bytes[4])) else beacon
  }

  /** 0xA1: temperature (signed, 1/256 degree), humidity (unsigned, 1/10 percent), battery. */
  function ParseTemperatureHumidityFrame(bytes: seq<Byte>, beacon: MinewBeacon): MinewBeacon
  {
    var b1 := if |bytes| >= 6 then beacon.(temperature := Some(Signed16(bytes[4], bytes[5]) as real / 256.0)) else beacon;
    var b2 := if |bytes| >= 8 then b1.(humidity := Some(Word16(bytes[6], bytes[7]) as real / 10.0)) else b1;
    if |bytes| >= 9 then b2.(batteryLevel := Some(bytes[8])) else b2
  }

  /** 0xA2: three signed 16-bit axes, then battery. */
  function ParseAccelerationFrame(bytes: seq<Byte>, beacon: MinewBeacon): MinewBeacon
  {
    var b1 :=
      if |bytes| >= 10 then
        beacon.(accelerometer := Some(Acceleration(
          Signed16(bytes[4], bytes[5]), Signed16(bytes[6], bytes[7]), Signed16(bytes[8], bytes[9]))))
      else beacon;
    if |bytes| >= 11 then b1.(batteryLevel := Some(bytes[10])) else b1
  }

  /** `.replace(/(.{8})(.{4})(.{4})(.{4})(.{12})/, '$1-$2-$3-$4-$5')` on 32 digits. */
  function Dashed(h: string): (r: string)
    requires |h| == 32
    ensures |r| == 36
  {
    h[..8] + "-" + h[8..12] + "-" + h[12..16] + "-" + h[16..20] + "-" + h[20..]
  }

  /** The iBeacon UUID text of 16 bytes: upper-case hex in 8-4-4-4-12 groups. */
  function UuidString(bs: seq<Byte>): string
    requires |bs| == 16
  {
    Upper(Dashed(BytesToHex(bs)))
  }

  /** 0xA7: UUID in bytes 4..19, major in 20..21, minor in 22..23 (all or nothing). */
  function ParseIBeaconFrame(bytes: seq<Byte>, beacon: MinewBeacon): MinewBeacon
  {
    if |bytes| >= 24 then
      beacon.(uuid := Some(UuidString(bytes[4..20])),
              major := Some(Word16(bytes[20], bytes[21])),
              minor := Some(Word16(bytes[22], bytes[23])))
    else beacon
  }

  /** 0xA8: byte 4 is the battery level. */
  function ParseBatteryFrame(bytes: seq<Byte>, beacon: MinewBeacon): MinewBeacon
  {
    if |bytes| > 4 then beacon.(batteryLevel := Some(bytes[4])) else beacon
  }

  /** The `switch (frameType)` of `parseMinewBeacon`; unknown tags leave the reading as it is. */
  function ParseFrame(bytes: seq<Byte>, beacon: MinewBeacon): MinewBeacon
    requires |bytes| >= 4
  {
    var t := bytes[2];
    if t == FRAME_DEVICE_INFO then ParseDeviceInfoFrame(bytes, beacon)
    else if t == FRAME_TEMPERATURE_HUMIDITY then ParseTemperatureHumidityFrame(bytes, beacon)
    else if t == FRAME_ACCELERATION then ParseAccelerationFrame(bytes, beacon)
    else if t == FRAME_IBEACON then ParseIBeaconFrame(bytes, beacon)
    else if t == FRAME_BATTERY then ParseBatteryFrame(bytes, beacon)
    else beacon
  }

  /**
   * `parseMinewBeacon(mac, rssi, hex)`, with the clock reading passed in as `now`.
   * No reading for foreign or too-short data; otherwise the header fields, the
   * raw hex, and whatever the frame's own layout fills in.
   */
  function ParseMinewBeacon(mac: string, rssi: int, hex: string, now: int): (r: Option<MinewBeacon>)
    requires IsHexString(hex)
    ensures r.None? <==> |hex| < 7 || DecodeHex(hex)[0] != 0xE1 || DecodeHex(hex)[1] != 0xFF
    ensures r.Some? ==>
      && r.value.mac == mac && r.value.rssi == rssi
      && r.value.frameType == DecodeHex(hex)[2] && r.value.productModel == DecodeHex(hex)[3]
      && r.value.rawData == hex && r.value.timestamp == now
    ensures r.Some? && !IsKnownFrame(r.value.frameType) ==> NoOptionalFields(r.value)
  {
    if !IsMinewBeacon(hex) then None
    else
      var bytes := DecodeHex(hex);
      if |bytes| < 4 then None
      else
        Some(ParseFrame(bytes, InitialBeacon(mac, rssi, bytes, hex, now)))
  }

  /** Short name for a parsed Minew frame: the frame's bytes, and its reading. */
  predicate FrameOf(hex: string, tag: Byte, r: MinewBeacon, mac: string, rssi: int, now: int)
  {
    && IsHexString(hex)
    && ParseMinewBeacon(mac, rssi, hex, now) == Some(r)
    && r.frameType == tag
  }

  /** Device-info (0xA0) and battery (0xA8) frames carry only the battery, and only past byte 4. */
  lemma BatteryOnlyFrames(mac: string, rssi: int, hex: string, now: int, r: MinewBeacon)
    requires FrameOf(hex, FRAME_DEVICE_INFO, r, mac, rssi, now) || FrameOf(hex, FRAME_BATTERY, r, mac, rssi, now)
    ensures var bytes := DecodeHex(hex);
      && (r.batteryLevel.Some? <==> |bytes| > 4)
      && (|bytes| > 4 ==> r.batteryLevel == Some(bytes[4]))
      && r.temperature.None? && r.humidity.None? && r.accelerometer.None?
      && r.uuid.None? && r.major.None? && r.minor.None?
  {
  }

  /** Temperature/humidity frame (0xA1): each field appears exactly when its bytes are present. */
  lemma TemperatureHumidityFrame(mac: string, rssi: int, hex: string, now: int, r: MinewBeacon)
    requires FrameOf(hex, FRAME_TEMPERATURE_HUMIDITY, r, mac, rssi, now)
    ensures var bytes := DecodeHex(hex);
      && (r.temperature.Some? <==> |bytes| >= 6)
      && (|bytes| >= 6 ==> r.temperature == Some(Signed16(bytes[4], bytes[5]) as real / 256.0))
      && (r.humidity.Some? <==> |bytes| >= 8)
      && (|bytes| >= 8 ==> r.humidity == Some(Word16(bytes[6], bytes[7]) as real / 10.0))
      && (r.batteryLevel.Some? <==> |bytes| >= 9)
      && (|bytes| >= 9 ==> r.batteryLevel == Some(bytes[8]))
      && r.accelerometer.None? && r.uuid.None? && r.major.None? && r.minor.None?
  {
  }

  /** Temperature bytes `FF 38` read as -200/256 = -0.78125 degrees; humidity bytes `02 58` as 60.0 percent. */
  lemma ClimateScaling()
    ensures Signed16(0xFF, 0x38) == -200 && Signed16(0xFF, 0x38) as real / 256.0 == -0.78125
    ensures Word16(0x02, 0x58) == 600 && Word16(0x02, 0x58) as real / 10.0 == 60.0
  {
  }

  /** Acceleration frame (0xA2): the three axes need ten bytes, the battery eleven. */
  lemma AccelerationFrame(mac: string, rssi: int, hex: string, now: int, r: MinewBeacon)
    requires FrameOf(hex, FRAME_ACCELERATION, r, mac, rssi, now)
    ensures var bytes := DecodeHex(hex);
      && (r.accelerometer.Some? <==> |bytes| >= 10)
      && (|bytes| >= 10 ==>
            r.accelerometer == Some(Acceleration(Signed16(bytes[4], bytes[5]),
                                                 Signed16(bytes[6], bytes[7]),
                                                 Signed16(bytes[8], bytes[9]))))
      && (r.batteryLevel.Some? <==> |bytes| >= 11)
      && (|bytes| >= 11 ==> r.batteryLevel == Some(bytes[10]))
      && r.temperature.None? && r.humidity.None? && r.uuid.None? && r.major.None? && r.minor.None?
  {
  }

  /** iBeacon frame (0xA7): UUID, major and minor appear together, once 24 bytes are present. */
  lemma IBeaconFrame(mac: string, rssi: int, hex: string, now: int, r: MinewBeacon)
    requires FrameOf(hex, FRAME_IBEACON, r, mac, rssi, now)
    ensures var bytes := DecodeHex(hex);
      && (r.uuid.Some? <==> |bytes| >= 24)
      && (r.major.Some? <==> |bytes| >= 24)
      && (r.minor.Some? <==> |bytes| >= 24)
      && (|bytes| >= 24 ==>
            && r.uuid == Some(UuidString(bytes[4..20]))
            && r.major == Some(Word16(bytes[20], bytes[21]))
            && r.minor == Some(Word16(bytes[22], bytes[23])))
      && r.batteryLevel.None? && r.temperature.None? && r.humidity.None? && r.accelerometer.None?
  {
  }

  /** Number of dashes `Dashed` inserts before output position `k`. */
  function DashesBefore(k: nat): nat
  {
    if k < 8 then 0 else if k < 13 then 1 else if k < 18 then 2 else if k < 23 then 3 else 4
  }

  predicate IsDashPosition(k: nat)
  {
    k == 8 || k == 13 || k == 18 || k == 23
  }

  /** Character `k` of the dashed text: a dash, or the digit it was shifted from. */
  lemma DashedAt(h: string, k: nat)
    requires |h| == 32 && k < 36
    ensures Dashed(h)[k] == if IsDashPosition(k) then '-' else h[k - DashesBefore(k)]
  {
    var p1, p2, p3, p4, p5 := h[..8], h[8..12], h[12..16], h[16..20], h[20..];
    assert Dashed(h) == p1 + "-" + p2 + "-" + p3 + "-" + p4 + "-" + p5;
  }

  lemma UpperDashed(h: string)
    requires |h| == 32
    ensures Upper(Dashed(h)) == Dashed(Upper(h))
  {
    forall k | 0 <= k < 36
      ensures Upper(Dashed(h))[k] == Dashed(Upper(h))[k]
    {
      DashedAt(h, k);
      DashedAt(Upper(h), k);
    }
  }

  /** Stripping `a + "-" + b` drops the dash and keeps `b`, which has no separators, as it is. */
  lemma StripDash(a: string, b: string)
    requires NoSeparators(b)
    ensures StripSeparators(a + "-" + b) == StripSeparators(a) + b
  {
    StripConcat(a + "-", b);
    StripConcat(a, "-");
    StripWithoutSeparators(b);
  }

  /** The five groups of the dashed layout put back together. */
  lemma Regroup(h: string)
    requires |h| == 32
    ensures h[..8] + h[8..12] + h[12..16] + h[16..20] + h[20..] == h
  {
    assert h[..8] + h[8..12] == h[..12];
    assert h[..12] + h[12..16] == h[..16];
    assert h[..16] + h[16..20] == h[..20];
  }

  /** Stripping the separators out of the dashed text gives the 32 digits back. */
  lemma StripDashed(h: string)
    requires |h| == 32 && NoSeparators(h)
    ensures StripSeparators(Dashed(h)) == h
  {
    var p1, p2, p3, p4, p5 := h[..8], h[8..12], h[12..16], h[16..20], h[20..];
    var d2 := p1 + "-" + p2;
    var d3 := d2 + "-" + p3;
    var d4 := d3 + "-" + p4;
    StripWithoutSeparators(p1);
    StripDash(p1, p2);
    StripDash(d2, p3);
    StripDash(d3, p4);
    StripDash(d4, p5);
    Regroup(h);
  }

  /**
   * The UUID text has the 8-4-4-4-12 layout: dashes at 8, 13, 18 and 23 and
   * upper-case hex digits elsewhere.
   */
  lemma UuidStringShape(bs: seq<Byte>)
    requires |bs| == 16
    ensures var u := UuidString(bs);
      && |u| == 36
      && (forall k :: 0 <= k < 36 && IsDashPosition(k) ==> u[k] == '-')
      && (forall k :: 0 <= k < 36 && !IsDashPosition(k) ==> IsUpperHexDigit(u[k]))
  {
    var up := Upper(BytesToHex(bs));
    UpperDashed(BytesToHex(bs));
    forall k | 0 <= k < 36
      ensures IsDashPosition(k) ==> Dashed(up)[k] == '-'
      ensures !IsDashPosition(k) ==> IsUpperHexDigit(Dashed(up)[k])
    {
      DashedAt(up, k);
    }
  }

  /** Stripping the dashes out of the UUID text and decoding the digits gives the 16 bytes back. */
  lemma UuidStringBytes(bs: seq<Byte>)
    requires |bs| == 16
    ensures IsHexString(StripSeparators(UuidString(bs)))
    ensures DecodeHex(StripSeparators(UuidString(bs))) == bs
  {
    var h := BytesToHex(bs);
    UpperDashed(h);
    UpperKeepsNoSeparators(h);
    StripDashed(Upper(h));
    DecodeUpper(h);
    DecodeBytesToHex(bs);
  }

  // ---------------------------------------------------------------------------
  // An encoder for each known frame, the reference the decoder is checked against

  datatype Reading =
    | DeviceInfoReading(deviceBattery: Byte)
    | ClimateReading(temperatureRaw: int, humidityRaw: int, climateBattery: Byte)
    | MotionReading(x: int, y: int, z: int, motionBattery: Byte)
    | IBeaconReading(uuidBytes: seq<Byte>, major: int, minor: int)
    | BatteryReading(battery: Byte)

  predicate IsInt16(v: int) { -32768 <= v <= 32767 }
  predicate IsUint16(v: int) { 0 <= v <= 65535 }

  predicate ValidReading(r: Reading)
  {
    match r
    case DeviceInfoReading(_) => true
    case ClimateReading(t, h, _) => IsInt16(t) && IsUint16(h)
    case MotionReading(x, y, z, _) => IsInt16(x) && IsInt16(y) && IsInt16(z)
    case IBeaconReading(u, major, minor) => |u| == 16 && IsUint16(major) && IsUint16(minor)
    case BatteryReading(_) => true
  }

  function TagOf(r: Reading): Byte
  {
    match r
    case DeviceInfoReading(_) => FRAME_DEVICE_INFO
    case ClimateReading(_, _, _) => FRAME_TEMPERATURE_HUMIDITY
    case MotionReading(_, _, _, _) => FRAME_ACCELERATION
    case IBeaconReading(_, _, _) => FRAME_IBEACON
    case BatteryReading(_) => FRAME_BATTERY
  }

  /** Big-endian bytes of a 16-bit value, two's complement for negatives. */
  function BigEndian16(v: int): (bs: seq<Byte>)
    requires IsInt16(v) || IsUint16(v)
    ensures |bs| == 2
  {
    var u := (v + 65536) % 65536;
    [u / 256, u % 256]
  }

  lemma Signed16OfBigEndian(v: int)
    requires IsInt16(v)
    ensures Signed16(BigEndian16(v)[0], BigEndian16(v)[1]) == v
  {
  }

  lemma Word16OfBigEndian(v: int)
    requires IsUint16(v)
    ensures Word16(BigEndian16(v)[0], BigEndian16(v)[1]) == v
  {
  }

  /** The full manufacturer data a beacon of product `model` would send for reading `r`. */
  function EncodeFrame(model: Byte, r: Reading): (bs: seq<Byte>)
    requires ValidReading(r)
    ensures |bs| >= 5
  {
    var payload :=
      match r
      case DeviceInfoReading(b) => [b]
      case ClimateReading(t, h, b) => BigEndian16(t) + BigEndian16(h) + [b]
      case MotionReading(x, y, z, b) => BigEndian16(x) + BigEndian16(y) + BigEndian16(z) + [b]
      case IBeaconReading(u, major, minor) => u + BigEndian16(major) + BigEndian16(minor)
      case BatteryReading(b) => [b];
    [0xE1, 0xFF, TagOf(r), model] + payload
  }

  /** The reading carries exactly the fields of `r` and nothing else. */
  predicate Carries(b: MinewBeacon, r: Reading)
    requires ValidReading(r)
  {
    match r
    case DeviceInfoReading(bat) =>
      b.batteryLevel == Some(bat)
      && b.temperature.None? && b.humidity.None? && b.accelerometer.None? && b.uuid.None? && b.major.None? && b.minor.None?
    case ClimateReading(t, h, bat) =>
      b.temperature == Some(t as real / 256.0) && b.humidity == Some(h as real / 10.0) && b.batteryLevel == Some(bat)
      && b.accelerometer.None? && b.uuid.None? && b.major.None? && b.minor.None?
    case MotionReading(x, y, z, bat) =>
      b.accelerometer == Some(Acceleration(x, y, z)) && b.batteryLevel == Some(bat)
      && b.temperature.None? && b.humidity.None? && b.uuid.None? && b.major.None? && b.minor.None?
    case IBeaconReading(u, major, minor) =>
      b.uuid == Some(UuidString(u)) && b.major == Some(major) && b.minor == Some(minor)
      && b.batteryLevel.None? && b.temperature.None? && b.humidity.None? && b.accelerometer.None?
    case BatteryReading(bat) =>
      b.batteryLevel == Some(bat)
      && b.temperature.None? && b.humidity.None? && b.accelerometer.None? && b.uuid.None? && b.major.None? && b.minor.None?
  }

  /** The reading `parseMinewBeacon` starts from, before the frame fills anything in. */
  function InitialBeacon(mac: string, rssi: int, bytes: seq<Byte>, hex: string, now: int): MinewBeacon
    requires |bytes| >= 4
  {
    MinewBeacon(mac, rssi, bytes[2], bytes[3], None, None, None, None, None, None, None, hex, now)
  }

  /** Decoding the hex rendering of Minew bytes is the frame dispatch on those bytes. */
  lemma ParseRenderedBytes(mac: string, rssi: int, bs: seq<Byte>, now: int)
    requires |bs| >= 4 && bs[0] == 0xE1 && bs[1] == 0xFF
    ensures ParseMinewBeacon(mac, rssi, BytesToHex(bs), now)
         == Some(ParseFrame(bs, InitialBeacon(mac, rssi, bs, BytesToHex(bs), now)))
  {
    DecodeBytesToHex(bs);
  }

  lemma DecodeEncodedClimate(b0: MinewBeacon, model: Byte, t: int, h: int, bat: Byte)
    requires IsInt16(t) && IsUint16(h) && NoOptionalFields(b0)
    ensures Carries(ParseFrame(EncodeFrame(model, ClimateReading(t, h, bat)), b0), ClimateReading(t, h, bat))
  {
    Signed16OfBigEndian(t);
    Word16OfBigEndian(h);
  }

  lemma DecodeEncodedMotion(b0: MinewBeacon, model: Byte, x: int, y: int, z: int, bat: Byte)
    requires IsInt16(x) && IsInt16(y) && IsInt16(z) && NoOptionalFields(b0)
    ensures Carries(ParseFrame(EncodeFrame(model, MotionReading(x, y, z, bat)), b0), MotionReading(x, y, z, bat))
  {
    Signed16OfBigEndian(x);
    Signed16OfBigEndian(y);
    Signed16OfBigEndian(z);
  }

  lemma DecodeEncodedIBeacon(b0: MinewBeacon, model: Byte, u: seq<Byte>, major: int, minor: int)
    requires |u| == 16 && IsUint16(major) && IsUint16(minor) && NoOptionalFields(b0)
    ensures Carries(ParseFrame(EncodeFrame(model, IBeaconReading(u, major, minor)), b0), IBeaconReading(u, major, minor))
  {
    var bs := EncodeFrame(model, IBeaconReading(u, major, minor));
    assert bs[4..20] == u;
    Word16OfBigEndian(major);
    Word16OfBigEndian(minor);
  }

  /** The frame layout of every reading decodes to exactly that reading. */
  lemma DecodeEncodedReading(b0: MinewBeacon, model: Byte, r: Reading)
    requires ValidReading(r) && NoOptionalFields(b0)
    ensures Carries(ParseFrame(EncodeFrame(model, r), b0), r)
  {
    match r {
      case DeviceInfoReading(_) =>
      case ClimateReading(t, h, bat) => DecodeEncodedClimate(b0, model, t, h, bat);
      case MotionReading(x, y, z, bat) => DecodeEncodedMotion(b0, model, x, y, z, bat);
      case IBeaconReading(u, major, minor) => DecodeEncodedIBeacon(b0, model, u, major, minor);
      case BatteryReading(_) =>
    }
  }

  /**
   * Decoding what a beacon sends gives back what it measured: the header, and
   * exactly the fields of the reading, with temperature and humidity scaled.
   */
  lemma DecodeEncodedFrame(mac: string, rssi: int, model: Byte, r: Reading, now: int)
    requires ValidReading(r)
    ensures var hex := BytesToHex(EncodeFrame(model, r));
      var b := ParseMinewBeacon(mac, rssi, hex, now);
      && b.Some?
      && b.value.frameType == TagOf(r) && b.value.productModel == model
      && b.value.rawData == hex
      && Carries(b.value, r)
  {
    var bs := EncodeFrame(model, r);
    var hex := BytesToHex(bs);
    ParseRenderedBytes(mac, rssi, bs, now);
    DecodeBytesToHex(bs);
    DecodeEncodedReading(InitialBeacon(mac, rssi, bs, hex, now), model, r);
  }

  /** `getFrameTypeName`; unknown tags print as `Unknown (0x..)` with unpadded lower-case hex. */
  function FrameTypeName(t: Byte): (name: string)
  {
    if t == FRAME_DEVICE_INFO then "Device Info"
    else if t == FRAME_TEMPERATURE_HUMIDITY then "Temp/Humidity"
    else if t == FRAME_ACCELERATION then "Acceleration"
    else if t == FRAME_IBEACON then "iBeacon"
    else if t == FRAME_BATTERY then "Battery"
    else "Unknown (0x" + ShortHex(t) + ")"
  }

  /** `t.toString(16)`: one digit below 16, two otherwise. */
  function ShortHex(t: Byte): (h: string)
    ensures 1 <= |h| <= 2
  {
    if t < 16 then [LowerHexDigit(t)] else [LowerHexDigit(t / 16), LowerHexDigit(t % 16)]
  }

  lemma UnknownNamePrefix(t: Byte)
    ensures |FrameTypeName(t)| > 0
    ensures FrameTypeName(t)[0] == 'U' <==> !IsKnownFrame(t)
  {
  }

  /** Different frame types get different names. */
  lemma FrameTypeNameInjective(a: Byte, b: Byte)
    requires FrameTypeName(a) == FrameTypeName(b)
    ensures a == b
  {
    var na := FrameTypeName(a);
    UnknownNamePrefix(a);
    UnknownNamePrefix(b);
    if !IsKnownFrame(a) && !IsKnownFrame(b) {
      var ha, hb := ShortHex(a), ShortHex(b);
      assert |na| == 12 + |ha| == 12 + |hb|;
      assert na[11..11 + |ha|] == ha;
      assert FrameTypeName(b)[11..11 + |hb|] == hb;
      assert ha == hb;
      if |ha| == 2 {
        assert a / 16 == HexValue(ha[0]) == b / 16;
      }
    }
  }
}
