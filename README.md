# Sentinnel scanner core, modelled in Dafny

A model of the Bluetooth Low Energy side of the Sentinnel scanner app, with the MAC, QR and token
helpers that surround it:

- **MinewParser** (`minew_parser.dfy`) decodes Minew beacon advertisements. It renders bytes as hex
  and reads hex back (`hexToBytes`). It recognises the Minew vendor id `0xFFE1` and dispatches on the
  frame-type byte to the five frame parsers. Each frame parser fills in the optional fields the buffer
  is long enough to hold. An encoder for every known frame acts as the reference the decoder is
  proved against.
- **BleScanner** (`ble_scanner.dfy`) is the scan session as a class. It holds the state (idle,
  scanning, stopped, error), the `isScanning` flag, the error text and three maps keyed by address:
  devices, decoded beacons, and last report times. The methods are `startScan`, `processDevice`
  (with its 1000 ms per-address throttle), `stopScan`, `clearDevices`, the discovery callback and the
  adapter-state listener.
- **BlePermissions** (`ble_permissions.dfy`) maps what the operating system answers to the
  permission record.
- **MacUtils** (`mac_utils.dfy`) holds the Minew MAC helpers: clean, format, validate against prefix
  `C30000`, and extract a MAC from a QR text in one of four layouts. **Patterns** (`patterns.dfy`)
  models the leftmost-match regular expressions that the three QR extractors use.
- **GatewayMac** (`gateway_mac.dfy`) validates a gateway MAC against five vendor prefixes and
  extracts one from a QR text.
- **LiveLists** (`live_lists.dfy`) holds the replace-or-append list updaters of the scanner hook.
- **Jwt** (`jwt_expiry.dfy`) covers token expiry arithmetic, starting from the decoded `exp` claim.
- **AssociateDevice** (`associate_device.dfy`) is the add-device dialog. It has its own MAC check and
  QR extraction, and its step machine is a class with one method per handler.
- **Text** (`text.dfy`) and **Wrappers** (`wrappers.dfy`) hold the character classes, string helpers
  and `Option`.
- `BleScanner.SessionScenario` and `AssociateDevice.AddDeviceScenario` are worked examples. Their
  assertions trace one scan session (throttle, a second start, adapter loss, a refused restart) and one
  pass through the dialog (scan a labelled code, name the device, submit, close).

The clock (`now`), the OS answers (permission results, adapter state, a failure to start discovery),
each advertisement, the `JSON.parse` outcome and the backend's answer are all parameters.

Behaviour of the code worth knowing:

- A permission *check* never reports `canAskAgain` false. Only a request can see `'never_ask_again'`.
- A powered-off adapter during a scan ends in the **stopped** state, because `handleError` runs first
  and then `stopScan`. The error message is kept.
- An `Unauthorized` adapter event sets the error state but leaves `isScanning` true. A later
  `startScan` then returns true without doing anything.
- The dialog's `extractMACFromQR` returns the raw regex capture, not a cleaned MAC.
- The `extractMACFromQR` of `utils/mac.ts` can return a non-MAC: twelve colons give `""`.
- Frame tag `0xA1` is both `INFO` and `TEMPERATURE_HUMIDITY`. It always decodes as temperature and
  humidity, so `INFO` has no effect.
- The hook's `startScan` empties its lists before calling the scanner's `startScan`. When the scanner returns
  early (already scanning, permissions refused, adapter not powered on) it keeps its maps, so the lists no
  longer show every entry the scanner holds.

## Model

| member | source | states |
|---|---|---|
| MinewParser.ByteHex | services/minew-parser.ts:20 | a byte becomes two hex digits, neither of them upper-case |
| MinewParser.BytesToHex | services/minew-parser.ts:19-21 | the text is twice as long as the bytes, all hex digits, none upper-case |
| MinewParser.BytesToHexAt | services/minew-parser.ts:19-21 | byte `k` is rendered at positions `2k` and `2k + 1`, high digit first |
| MinewParser.DecodeHex | services/minew-parser.ts:30-36 | one byte per pair of digits, so the result has (n+1)/2 bytes; an odd trailing digit is read alone |
| MinewParser.HexToBytes | services/minew-parser.ts:30-36 | the loop that walks the digits two at a time yields exactly `DecodeHex` of its input |
| MinewParser.PairOfByte | services/minew-parser.ts:15-36 | the pair of digits byte `k` is rendered as reads back as that byte |
| MinewParser.DecodeBytesToHex | services/minew-parser.ts:15-36 | reading back the hex rendering of any byte sequence gives the same bytes |
| MinewParser.DecodeUpper | services/minew-parser.ts:30-36 | upper-cased hex decodes to the same bytes, because base-16 parsing ignores case |
| MinewParser.Word16 | services/minew-parser.ts:209-211 | the big-endian word of `hi` and `lo` lies in [0, 65535], and its high and low bytes are `hi` and `lo` |
| MinewParser.Signed16 | services/minew-parser.ts:147-150 | the signed reading lies in [-32768, 32767] and has the same 16 bits as the unsigned one |
| MinewParser.IsMinewBeacon | services/minew-parser.ts:41-52 | true iff there are at least four digits and the first two bytes are `E1 FF` (vendor id 0xFFE1, little-endian) |
| MinewParser.ParseMinewBeacon | services/minew-parser.ts:57-124 | no reading iff the data is shorter than four bytes or is not Minew; otherwise the mac, rssi, frame type (byte 2), product model (byte 3), raw hex and timestamp come from the input; an unknown frame type leaves every optional field empty |
| MinewParser.BatteryOnlyFrames | services/minew-parser.ts:129-222 | device-info (0xA0) and battery (0xA8) frames set only the battery, to byte 4, and only when there are more than four bytes |
| MinewParser.TemperatureHumidityFrame | services/minew-parser.ts:139-162 | temperature is set iff there are at least 6 bytes (signed16/256), humidity iff at least 8 (unsigned16/10), battery iff at least 9; no other field is set |
| MinewParser.ClimateScaling | services/minew-parser.ts:146-157 | bytes `FF 38` read as -200/256 = -0.78125 degrees; bytes `02 58` read as 60.0 percent |
| MinewParser.AccelerationFrame | services/minew-parser.ts:167-189 | the three axes (signed16 each) are set iff there are at least 10 bytes; the battery iff at least 11; no other field is set |
| MinewParser.IBeaconFrame | services/minew-parser.ts:194-213 | uuid, major and minor are set together iff there are at least 24 bytes, from bytes 4..19, 20..21 and 22..23; no other field is set |
| MinewParser.Dashed | services/minew-parser.ts:206 | 32 digits become 36 characters in the 8-4-4-4-12 layout |
| MinewParser.DashedAt | services/minew-parser.ts:206 | each output character is a dash at 8, 13, 18 or 23, and otherwise the digit it was shifted from |
| MinewParser.UpperDashed | services/minew-parser.ts:204-207 | upper-casing after inserting the dashes is inserting them after upper-casing |
| MinewParser.StripDash | services/minew-parser.ts:206 | removing separators from `a-b`, where `b` has none, drops the dash and keeps `b` |
| MinewParser.StripDashed | services/minew-parser.ts:206 | removing the dashes from the 8-4-4-4-12 text gives the 32 digits back |
| MinewParser.UuidStringShape | services/minew-parser.ts:202-207 | the UUID text is 36 characters: dashes at 8, 13, 18 and 23, upper-case hex digits elsewhere |
| MinewParser.UuidStringBytes | services/minew-parser.ts:202-207 | stripping the dashes out of the UUID text and decoding the digits gives the 16 bytes back |
| MinewParser.BigEndian16 | services/minew-parser.ts:148-150 | the encoder's two-byte form of a 16-bit value |
| MinewParser.Signed16OfBigEndian | services/minew-parser.ts:147-150 | reading the big-endian bytes of a signed 16-bit value as signed gives the value back |
| MinewParser.Word16OfBigEndian | services/minew-parser.ts:209-211 | reading the big-endian bytes of an unsigned 16-bit value gives the value back |
| MinewParser.EncodeFrame | services/minew-parser.ts:66-79 | the manufacturer data a beacon sends: `E1 FF`, tag, model, then the frame's payload, at least five bytes |
| MinewParser.ParseRenderedBytes | services/minew-parser.ts:57-124 | decoding the hex rendering of Minew bytes is the frame dispatch on those same bytes |
| MinewParser.DecodeEncodedClimate | services/minew-parser.ts:139-162 | a temperature/humidity frame built from raw readings decodes to exactly those readings, scaled |
| MinewParser.DecodeEncodedMotion | services/minew-parser.ts:167-189 | an acceleration frame decodes to exactly its three axes and its battery |
| MinewParser.DecodeEncodedIBeacon | services/minew-parser.ts:194-213 | an iBeacon frame decodes to the UUID text of its 16 bytes and to its major and minor |
| MinewParser.DecodeEncodedReading | services/minew-parser.ts:129-222 | every valid reading, encoded in its frame's layout, decodes to exactly its fields |
| MinewParser.DecodeEncodedFrame | services/minew-parser.ts:57-222 | for every valid reading of every known frame type, decoding what the beacon sends yields a reading with the right tag, model and raw hex that carries exactly the measured fields |
| MinewParser.ShortHex | services/minew-parser.ts:240 | `toString(16)` of a byte is one or two digits |
| MinewParser.UnknownNamePrefix | services/minew-parser.ts:227-242 | the name starts with `U` (`Unknown (0x..)`) exactly for the unknown frame types |
| MinewParser.FrameTypeNameInjective | services/minew-parser.ts:227-242 | different frame types get different names |
| BlePermissions.CheckIOS | services/ble-permissions.ts:42-52 | on iOS every flag is reported true, `canAskAgain` included |
| BlePermissions.RequestIOS | services/ble-permissions.ts:57-66 | the iOS request returns the same record as the iOS check |
| BlePermissions.CheckAndroid | services/ble-permissions.ts:72-114 | from API 31, `allGranted` is scan, connect and location together; below it, `allGranted` is location and the Bluetooth flags are true; `canAskAgain` is always true |
| BlePermissions.RequestAndroid | services/ble-permissions.ts:120-196 | only `'granted'` grants; from API 31, `canAskAgain` is false iff some answer is `'never_ask_again'`; below 31 only the location answer counts; an exception clears every flag |
| BlePermissions.CheckAlwaysAllowsAsking | services/ble-permissions.ts:21-114 | a check never reports that the user can no longer be asked |
| BlePermissions.RequestGrantedOrSoftDenied | services/ble-permissions.ts:32-196 | a request that grants everything leaves asking possible, and so does one whose denials are all plain `'denied'` |
| BlePermissions.CheckForgetsPermanentDenial | services/ble-permissions.ts:21-196 | with the same grants, check and request agree on every flag except `canAskAgain`, which the check always reports true |
| BleScanner.ThrottleWindow | services/ble-scanner.ts:221-225 | accepting a report at `t` blocks that address until `t + 1000` and leaves the window of every other address as it was |
| BleScanner.ManufacturerHex | services/ble-scanner.ts:228 | the manufacturer data passed to the decoder is a hex string |
| BleScanner.BeaconsAfterSpec | services/ble-scanner.ts:258-271 | the beacon map gains or replaces only the reporting address's entry, filed under that address, and keeps every other entry |
| BleScanner.ReportKeepsConsistent | services/ble-scanner.ts:220-224 | a report the throttle lets through keeps the maps consistent once its time is recorded: beacons have devices, devices have report times, entries are filed under their own address and are no newer than the last report |
| BleScanner.StoreKeepsConsistent | services/ble-scanner.ts:236-271 | storing the device record and the decoded beacon keeps the maps consistent |
| BleScanner.Scanner.constructor | services/ble-scanner.ts:21-36 | a fresh session is idle, not scanning, without error and with empty maps |
| BleScanner.Scanner.GetStatus | services/ble-scanner.ts:104-112 | the status copies state, flag, error and last update; the device count is the size of the device map; scanning implies the flag |
| BleScanner.Scanner.UpdateState | services/ble-scanner.ts:73-77 | the new state is stamped with the time and nothing else changes |
| BleScanner.Scanner.HandleError | services/ble-scanner.ts:91-99 | the error is kept, the state becomes error, and the flag and maps are unchanged |
| BleScanner.Scanner.StartScan | services/ble-scanner.ts:146-211 | while scanning it returns true and changes nothing; failed permissions or an adapter that is not powered on give false and the error state, with the maps kept; otherwise the maps are emptied and the scan starts unless discovery fails |
| BleScanner.Scanner.ProcessDevice | services/ble-scanner.ts:216-273 | a throttled report changes nothing; otherwise the report time is set before the Minew filter runs; a report the filter lets through upserts exactly the device entry (rssi defaulting to -100) and updates the beacon entry only when the data decodes |
| BleScanner.Scanner.RecordReport | services/ble-scanner.ts:220-224 | the report time of the address becomes `now`; the session invariant holds and nothing else changes |
| BleScanner.Scanner.StoreReport | services/ble-scanner.ts:236-273 | the device entry is set, the beacon entry is updated when the data decodes, the last update is `now`; the invariant holds and nothing else changes |
| BleScanner.Scanner.StopScan | services/ble-scanner.ts:278-292 | nothing happens when not scanning; otherwise the session is stopped whatever the hardware answers |
| BleScanner.Scanner.OnScanResult | services/ble-scanner.ts:182-200 | a scan error is recorded with its prefix and stops the scan; an advertisement goes to `processDevice` with the session's filter |
| BleScanner.Scanner.ClearDevices | services/ble-scanner.ts:306-311 | the three maps are emptied and the session is untouched |
| BleScanner.Scanner.OnAdapterStateChange | services/ble-scanner.ts:52-68 | powered off: error, then stop, ending stopped when a scan was running; unauthorized: error with the flag kept; powered on: back to idle only out of the error state |
| MacUtils.CleanMAC | utils/mac.ts:17-19 | the cleaned MAC has no separators and no lower-case letters and is no longer than the input |
| MacUtils.CleanIsCompact | utils/mac.ts:17-19 | the final `trim` never has anything to remove |
| MacUtils.CleanIdempotent | utils/mac.ts:17-19 | cleaning twice is cleaning once |
| MacUtils.CleanMacDigits | utils/mac.ts:17-19 | twelve upper-case hex digits are already clean |
| MacUtils.CleanHexOrColon | utils/mac.ts:76-102 | cleaning a text of hex digits and colons leaves only upper-case hex digits |
| MacUtils.ValidFormatIff | utils/mac.ts:38-41 | the format is valid iff twelve hex digits of either case remain once the separators are gone |
| MacUtils.FormatMAC | utils/mac.ts:25-33 | the input comes back unchanged unless it cleans to twelve characters; otherwise 17 characters, six pairs joined by colons, that strip back to the cleaned MAC |
| MacUtils.FormatRoundTrip | utils/mac.ts:17-33 | cleaning the formatted MAC gives the cleaned input |
| MacUtils.FormatIdempotent | utils/mac.ts:25-33 | formatting twice is formatting once |
| MacUtils.FormattedIsHexOrColon | utils/mac.ts:25-33 | a formatted MAC is 17 characters of `[0-9A-F:]` |
| MacUtils.ValidateMinewMAC | utils/mac.ts:46-71 | valid iff the format is valid and the MAC starts with `C30000`; the format error comes before the vendor error; on success the formatted MAC |
| MacUtils.RevalidateMinew | utils/mac.ts:46-71 | an accepted MAC, validated again in its formatted form, gives the same result |
| MacUtils.ExtractMACFromQR | utils/mac.ts:76-103 | the four layouts are tried in order and the first that applies decides: a bare MAC gives its cleaned form; else the leftmost `MINEW:` capture, cleaned; else a non-empty JSON `mac`, cleaned; else the leftmost URL capture, cleaned; there is no result iff no layout applies; every result is a fixed point of cleaning, and without JSON it is at most 17 upper-case hex digits |
| MacUtils.ExtractBareMac | utils/mac.ts:78-80 | a QR text that is a MAC, bare or colon-formatted, yields that MAC |
| MacUtils.ExtractMinewPrefixed | utils/mac.ts:83-86 | `MINEW:` followed by a MAC in any case, with or without colons, yields the cleaned MAC |
| MacUtils.ExtractUrlPath | utils/mac.ts:96-100 | a text that is `/` and a MAC, not JSON, yields the MAC through the URL layout |
| MacUtils.ExtractNotAlwaysValid | utils/mac.ts:78-80 | twelve colons yield the empty string, which is not a valid MAC |
| Patterns.RunLength | utils/mac.ts:83 | the greedy run of a character class, capped: every character in it matches, and the next one does not unless the cap was reached |
| Patterns.RunLengthToEnd | utils/mac.ts:83 | a run of the class reaching the end of the text within the cap is the whole rest of the text |
| Patterns.RunLengthFull | services/gateway.ts:274 | the run takes the whole cap exactly when that many characters of the class follow |
| Patterns.Capture | utils/mac.ts:83 | a capture is a piece of the text at the capture position, between `lo` and `hi` characters long |
| Patterns.CaptureClass | utils/mac.ts:83 | every captured character belongs to the class |
| Patterns.BacktrackSpec | components/devices/AddAssociatedDeviceModal/AddAssociatedDeviceModal.tsx:67 | what backtracking of `[:\s]*` finds is the capture taken after some number of skipped characters |
| Patterns.MatchAtCapture | utils/mac.ts:83 | a match at a position is the capture taken at that position or later |
| Patterns.MatchAtSpec | utils/mac.ts:83 | a match consists of characters of the class and occurs in the text at or after its position |
| Patterns.PlainMatch | services/gateway.ts:274 | a pattern with neither literal nor skipped class is its capture alone |
| Patterns.FixedCapture | services/gateway.ts:274 | `([cls]{n})` succeeds exactly on `n` characters of the class, and takes them |
| Patterns.NoLiteralNoMatch | utils/mac.ts:83 | without the literal at a position the pattern does not match there |
| Patterns.MatchAtRun | utils/mac.ts:83 | with the literal present and a long enough greedy run after the skipped characters, the match is that run |
| Patterns.MatchToEnd | utils/mac.ts:83 | a capture that runs to the end of the text within the allowed length is the rest of the text |
| Patterns.FirstTrueSpec | utils/mac.ts:83 | the leftmost search finds nothing iff nothing holds, and what it finds holds with nothing before it |
| Patterns.FirstTrueAt | utils/mac.ts:83 | the leftmost search stops at the first position that holds |
| Patterns.FindSpec | utils/mac.ts:83 | `match` without the `g` flag: no result iff the pattern matches nowhere; otherwise the match at the leftmost position where it matches |
| Patterns.FindNone | utils/mac.ts:83 | a pattern that matches nowhere gives no result |
| Patterns.FindAt | utils/mac.ts:83 | a match with none before it is the result |
| Patterns.FindPiece | utils/mac.ts:83 | a result is between `lo` and `hi` characters of the class and a substring of the text |
| GatewayMac.ValidateGatewayMAC | services/gateway.ts:230-260 | empty input first, then length, then characters, then vendor prefix (one of the five); on success the cleaned twelve digits without colons |
| GatewayMac.RevalidateGateway | services/gateway.ts:230-260 | a validated gateway MAC validates again to itself |
| GatewayMac.GatewayIsNotMinew | services/gateway.ts:245-247 | no accepted gateway MAC is an accepted Minew MAC |
| GatewayMac.HexRunAt | services/gateway.ts:274 | the pattern matches at a position iff twelve upper-case hex digits start there, and it captures them |
| GatewayMac.FindHexRun | services/gateway.ts:274-277 | a found run is twelve upper-case hex digits and a substring of the text |
| GatewayMac.RunAtChars | services/gateway.ts:274 | a run at a position is twelve upper-case hex digits from that position on |
| GatewayMac.FindHexRunLeftmost | services/gateway.ts:274-277 | the search finds nothing iff there is no twelve-digit run, and otherwise the leftmost run |
| GatewayMac.ExtractMACFromQR | services/gateway.ts:265-280 | empty input gives nothing; the whole cleaned text when it is a MAC; any result is twelve upper-case hex digits and a substring of the cleaned text |
| GatewayMac.ExtractLeftmostRun | services/gateway.ts:265-280 | for non-empty input there is no result iff the cleaned text has no twelve-digit run; otherwise the result is the leftmost such run |
| LiveLists.FindIndex | hooks/useBleScanner.ts:48 | the first index holding the key, or -1 when no element has it |
| LiveLists.UpsertShape | hooks/useBleScanner.ts:47-55 | a present key: same length, its first position holds the new item, every other position unchanged; an absent key: the item is appended |
| LiveLists.UpsertKeepsUnique | hooks/useBleScanner.ts:47-55 | unique keys stay unique, and the result contains the new item |
| LiveLists.UpsertKeys | hooks/useBleScanner.ts:47-55 | the keys of the result are the old keys plus the new one |
| LiveLists.UpsertMirrors | hooks/useBleScanner.ts:47-55 | a list that mirrors a map still mirrors it after the same item is stored in both |
| LiveLists.OnDeviceFound | hooks/useBleScanner.ts:46-56 | the device list gains the device, keeps unique ids, and the beacon list is untouched |
| LiveLists.OnBeaconFound | hooks/useBleScanner.ts:57-67 | the beacon list gains the beacon, keeps unique MACs, and the device list is untouched |
| LiveLists.ClearedMirrors | hooks/useBleScanner.ts:130-150 | the emptied lists mirror the scanner exactly when its maps are empty too: after `clearDevices` or a `startScan` that reaches its reset, not after a start that returns early with old entries kept |
| LiveLists.ReportsKeepMirror | hooks/useBleScanner.ts:46-67 | lists that mirror the scanner's maps keep mirroring them after each report the scanner stores, a device and then a beacon |
| Jwt.TokenExpiry | utils/jwt.ts:38-44 | the expiry is `exp * 1000`, fractional claims included; a missing or zero `exp` gives none |
| Jwt.ExpiryTests | utils/jwt.ts:49-69 | expired iff there is no expiry or `now >= exp*1000`; expiring soon iff there is no expiry or `now + threshold >= exp*1000` |
| Jwt.ExpiredIsExpiringSoon | utils/jwt.ts:49-69 | with a non-negative threshold, an expired token is also expiring soon |
| Jwt.ExpiryMonotone | utils/jwt.ts:49-69 | a token that is expired, or expiring soon, stays so at every later time |
| Jwt.DefaultWindow | utils/jwt.ts:61-69 | with the default threshold of five minutes, a token is expiring soon exactly when at most five minutes remain |
| Jwt.TokenTimeRemaining | utils/jwt.ts:74-80 | never negative; positive exactly while the token has not expired, and then it is `exp*1000 - now`, fractional when the claim is |
| Jwt.SplitRemaining | utils/jwt.ts:90-91 | for any non-negative remaining time, fractional or not: seconds below 60, and the floored minutes and seconds account for it to within a second |
| Text.DecimalRoundTrip | utils/jwt.ts:93 | the decimal rendering of the minutes and seconds in the template string reads back as the same number |
| Jwt.FormatSpec | utils/jwt.ts:85-94 | `"Expirado"` iff expired; otherwise `"<m>m <s>s"` with seconds below 60 and `m*60000 + s*1000 <= remaining < m*60000 + s*1000 + 1000` |
| AssociateDevice.ValidateMAC | components/devices/AddAssociatedDeviceModal/AddAssociatedDeviceModal.tsx:119-133 | valid iff the MAC, stripped and upper-cased, is twelve hex digits (no vendor check); the length error comes first; on success the six pairs joined by colons |
| AssociateDevice.RevalidateAccepted | components/devices/AddAssociatedDeviceModal/AddAssociatedDeviceModal.tsx:119-133 | the formatted MAC is accepted again, as itself |
| AssociateDevice.MinewMacAccepted | components/devices/AddAssociatedDeviceModal/AddAssociatedDeviceModal.tsx:119-133 | every MAC the Minew validator accepts the dialog accepts too, with the same formatting |
| AssociateDevice.ExtractMACFromQR | components/devices/AddAssociatedDeviceModal/AddAssociatedDeviceModal.tsx:66-80 | the patterns are tried in order: the `mac` label pattern's leftmost capture if it matches anywhere, else the twelve-digit pattern's, else the 17-character pattern's; nothing iff none matches anywhere; every result is a raw capture of 12 to 17 hex digits and colons, taken from the text |
| AssociateDevice.ExtractBareMac | components/devices/AddAssociatedDeviceModal/AddAssociatedDeviceModal.tsx:66-80 | a QR text that is a bare MAC is found as it is |
| AssociateDevice.ExtractLabelledMac | components/devices/AddAssociatedDeviceModal/AddAssociatedDeviceModal.tsx:66-80 | `MAC:` followed by a formatted MAC yields that formatted MAC |
| AssociateDevice.FormattedAccepted | components/devices/AddAssociatedDeviceModal/AddAssociatedDeviceModal.tsx:119-133 | the dialog accepts a colon-formatted MAC as it stands |
| AssociateDevice.AddDeviceFlow.constructor | components/devices/AddAssociatedDeviceModal/AddAssociatedDeviceModal.tsx:42-55 | the dialog opens on the scanner with empty fields, priority 3 and no alert |
| AssociateDevice.AddDeviceFlow.ResetForm | components/devices/AddAssociatedDeviceModal/AddAssociatedDeviceModal.tsx:86-94 | back to the scanner with empty fields, priority 3 and a fresh scanner |
| AssociateDevice.AddDeviceFlow.HandleClose | components/devices/AddAssociatedDeviceModal/AddAssociatedDeviceModal.tsx:96-108 | a pending alert is dismissed and the dialog stays open; otherwise the dialog closes and the form is reset |
| AssociateDevice.AddDeviceFlow.ShowAlert | components/devices/AddAssociatedDeviceModal/AddAssociatedDeviceModal.tsx:110-116 | the main dialog is hidden and the alert is pending |
| AssociateDevice.AddDeviceFlow.HandleQRScan | components/devices/AddAssociatedDeviceModal/AddAssociatedDeviceModal.tsx:135-155 | no MAC in the code raises the invalid-QR alert; a MAC that fails the check raises the invalid-MAC alert; otherwise the formatted MAC is taken over and the form opens; only that path changes the step |
| AssociateDevice.AddDeviceFlow.OpenForm | components/devices/AddAssociatedDeviceModal/AddAssociatedDeviceModal.tsx:153-154 | the accepted MAC is taken over and the form opens; the invariant holds and nothing else changes |
| AssociateDevice.AddDeviceFlow.HandleManualSubmit | components/devices/AddAssociatedDeviceModal/AddAssociatedDeviceModal.tsx:157-168 | the typed MAC opens the form with its formatted form when it passes the check, and raises the invalid-MAC alert otherwise |
| AssociateDevice.AddDeviceFlow.HandleFormSubmit | components/devices/AddAssociatedDeviceModal/AddAssociatedDeviceModal.tsx:170-185 | nothing is sent without a MAC or with a blank name; otherwise the trimmed name, the MAC as twelve upper-case hex digits and the priority; a created device raises the success alert |
| AssociateDevice.AddDeviceFlow.HandleCancel | components/devices/AddAssociatedDeviceModal/AddAssociatedDeviceModal.tsx:187-199 | from manual entry to the scanner with the typed MAC cleared; from the form to the scanner with MAC, name and priority reset; from the scanner it closes as `handleClose` does |
| AssociateDevice.AddDeviceFlow.HandleInvalidQRClose | components/devices/AddAssociatedDeviceModal/AddAssociatedDeviceModal.tsx:201-205 | the alert is dismissed and the scanner restarts |
| AssociateDevice.AddDeviceFlow.HandleInvalidMACClose | components/devices/AddAssociatedDeviceModal/AddAssociatedDeviceModal.tsx:207-212 | the alert is dismissed and manual entry opens with an empty field |
| AssociateDevice.AddDeviceFlow.HandleSuccessClose | components/devices/AddAssociatedDeviceModal/AddAssociatedDeviceModal.tsx:214-221 | the alert is dismissed, the dialog closes and the form is reset |
| AssociateDevice.AddDeviceFlow.ChooseManualEntry | components/devices/AddAssociatedDeviceModal/AddAssociatedDeviceModal.tsx:260 | the "enter manually" button moves to manual entry and changes nothing else |
| AssociateDevice.AddDeviceFlow.EditFields | components/devices/AddAssociatedDeviceModal/AddAssociatedDeviceModal.tsx:282-408 | typing sets the MAC field, the name and a priority from 1 to 5, and nothing else |

## Left out

- Base64 decoding in `b64ToHex` is left out: the scanner starts from the decoded bytes. A failed decode (`''`) is not modelled.
- MinewParser.HexToBytes: requires every character to be a hex digit. `parseInt` giving `NaN` on other input is not modelled, because the scanner passes only `b64ToHex` output.
- MinewParser.ParseMinewBeacon: requires hex input, for the same reason. Temperature and humidity are exact `real` values here, not JavaScript doubles.
- `b0 | (b1 << 8)` and `(hi << 8) | lo` are modelled as sums. This is exact for bytes, because the bit ranges are disjoint.
- The `try`/`catch` around the frame parsers is left out: no frame parser can throw once every index is guarded.
- The BLE library (`BleManager`, `state()`, `onStateChange`, `startDeviceScan`, `stopDeviceScan`, `destroy`) is left out. Its answers are parameters, and `destroy` is not modelled.
- Callbacks, `notifyStateChange`, `setCallbacks`, the `getDevices`/`getBeacons` array copies and logging are left out. They copy or announce state without changing it. The hook's lists are modelled separately, with the mirror lemma.
- `await` and concurrency between the scanner's asynchronous steps are left out: each method runs to completion.
- `Date.now()` is left out. The scanner and the parser read the same `now` during one report.
- BleScanner.Scanner.StartScan: the permission request it makes, the adapter state it reads and a failure to start discovery are parameters (the platform and the OS answers, `adapter`, `startError`). The callback reads the filter from a field set at start rather than from a captured local.
- BleScanner.Scanner.OnAdapterStateChange: the listener exists in the code only once the first `startScan` has created the BLE manager, and it replays the current state when registered. The model accepts adapter events at any time, including before the first start.
- BleScanner.Scanner.OnScanResult: for the case with neither an error nor a device, it states only that nothing changes; the device case is stated by `ProcessDevice`.
- `JSON.parse` in `utils/mac.ts` is the parameter `jsonMac`. It is the string `mac` field when the text parses and has one, and nothing otherwise.
- MacUtils.CleanMAC: `toUpperCase` is modelled on ASCII letters only. Case mappings that change a character into others are not modelled: JavaScript maps `'ﬀ'` (U+FB00) to `"FF"` and `'ß'` to `"SS"`, so a MAC such as `C30000ﬀ1234` is valid in the code but rejected here.
- MacUtils.ValidateMinewMAC, MacUtils.FormatMAC, GatewayMac.ValidateGatewayMAC, AssociateDevice.ValidateMAC: these inherit the ASCII-only upper-casing. Lengths count characters, not UTF-16 code units, so a text with a character outside the Basic Multilingual Plane (an emoji, two code units) has a different length here. With such characters the length checks and the errors reported can differ from the code.
- In the dialog, `setTimeout(…, 300)` is modelled as immediate. `clearError` of the association hook, `onClose`, `onSuccess` and the priority picker's visibility are left out. The backend call is the parameter `created`.
- `decodeToken` (`jwtDecode`) is left out. The model starts from the decoded `exp` claim, and `Date.now()` is the parameter `now`.
- Jwt.TokenExpiry: `exp` is an exact `real`. A `NaN` or infinite claim and the double rounding of `exp * 1000` and of the subtractions are not modelled.
