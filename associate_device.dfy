/**
 * The dialog that adds a device to a gateway: scan a QR code (or type the MAC
 * by hand), check it, fill in a name and a priority, submit. The MAC check and
 * the QR extraction are its own inline versions; the dialog's state (the step,
 * the MAC taken over into the form, the form fields, the pending alert) is a
 * class whose handlers update it. The backend call is a parameter (`created`).
 */
module AssociateDevice {
  import opened Wrappers
  import opened Text
  import opened Patterns
  import MacUtils

  const MSG_LENGTH := "La MAC debe tener 12 caracteres hexadecimales"
  const MSG_CHARACTERS := "La MAC contiene caracteres inválidos"
  const MSG_INVALID_QR := "El código QR escaneado no contiene una dirección MAC válida."
  const MSG_NOT_VTAG := "Este dispositivo no es un V-tag válido."

  /**
   * `validateMAC`: separators removed and upper-cased (no trim, no vendor
   * check); the length error before the character error; on success the six
   * pairs joined by colons.
   */
  function ValidateMAC(mac: string): (v: Validation)
    ensures v.Valid? <==> IsMacDigits(Compact(mac))
    ensures |Compact(mac)| != 12 ==> v == Invalid(MSG_LENGTH)
    ensures |Compact(mac)| == 12 && !IsMacDigits(Compact(mac)) ==> v == Invalid(MSG_CHARACTERS)
    ensures v.Valid? ==>
      && |v.formatted| == 17
      && StripSeparators(v.formatted) == Compact(mac)
      && v.formatted == MacUtils.FormatMAC(mac)
  {
    var cleaned := Compact(mac);
    if |cleaned| != 12 then Invalid(MSG_LENGTH)
    else if !IsMacDigits(cleaned) then Invalid(MSG_CHARACTERS)
    else
      MacUtils.CleanIsCompact(mac);
      StripJoinPairs(cleaned);
      Valid(JoinPairs(cleaned))
  }

  /** A MAC the dialog accepts and writes exactly so. */
  predicate IsAcceptedMac(s: string)
  {
    ValidateMAC(s) == Valid(s)
  }

  /** Whatever the dialog accepts, it accepts again in the form it produced. */
  lemma RevalidateAccepted(mac: string)
    requires ValidateMAC(mac).Valid?
    ensures IsAcceptedMac(ValidateMAC(mac).formatted)
  {
    var cleaned := Compact(mac);
    var f := ValidateMAC(mac).formatted;
    CompactShape(mac);
    StripJoinPairs(cleaned);
    UpperIdempotent(StripSeparators(mac));
    assert Compact(f) == cleaned;
  }

  /** The dialog accepts every MAC the Minew validator accepts, and formats it the same way. */
  lemma MinewMacAccepted(mac: string)
    requires MacUtils.ValidateMinewMAC(mac).Valid?
    ensures ValidateMAC(mac) == MacUtils.ValidateMinewMAC(mac)
  {
    MacUtils.CleanIsCompact(mac);
    MacUtils.CleanIdempotent(mac);
  }

  /** `[:\s]` */
  predicate IsColonOrSpace(c: char)
  {
    c == ':' || IsSpace(c)
  }

  /** `/mac[:\s]*([0-9A-Fa-f:]{12,17})/i` */
  const LabelPattern := Pattern("MAC", IsColonOrSpace, IsHexOrColon, 12, 17)

  /** `/([0-9A-Fa-f]{12})/` */
  const PlainPattern := Pattern("", Never, IsHexDigit, 12, 12)

  /** `/([0-9A-Fa-f:]{17})/` */
  const ColonPattern := Pattern("", Never, IsHexOrColon, 17, 17)

  /**
   * `extractMACFromQR`: the raw capture of the first of the three patterns
   * that matches, not cleaned; none when no pattern matches.
   */
  function ExtractMACFromQR(qr: string): (r: Option<string>)
    ensures r.None? <==>
      forall k :: 0 <= k <= |qr| ==>
        MatchAt(qr, k, LabelPattern).None? && MatchAt(qr, k, PlainPattern).None? && MatchAt(qr, k, ColonPattern).None?
    ensures r.Some? ==>
      && 12 <= |r.value| <= 17
      && (forall k :: 0 <= k < |r.value| ==> IsHexOrColon(r.value[k]))
      && IsSubstring(r.value, qr)
    ensures Find(qr, LabelPattern).Some? ==> r == Find(qr, LabelPattern)
    ensures Find(qr, LabelPattern).None? && Find(qr, PlainPattern).Some? ==> r == Find(qr, PlainPattern)
    ensures Find(qr, LabelPattern).None? && Find(qr, PlainPattern).None? ==> r == Find(qr, ColonPattern)
  {
    FindSpec(qr, LabelPattern);
    FindPiece(qr, LabelPattern);
    FindSpec(qr, PlainPattern);
    FindPiece(qr, PlainPattern);
    FindSpec(qr, ColonPattern);
    FindPiece(qr, ColonPattern);
    if Find(qr, LabelPattern).Some? then Find(qr, LabelPattern)
    else if Find(qr, PlainPattern).Some? then Find(qr, PlainPattern)
    else Find(qr, ColonPattern)
  }

  /** A bare MAC in the QR code is found as it is. */
  lemma ExtractBareMac(m: string)
    requires IsMacDigits(m)
    ensures ExtractMACFromQR(m) == Some(m)
  {
    forall k | 0 <= k <= |m|
      ensures MatchAt(m, k, LabelPattern).None?
    {
      if k + 3 <= |m| {
        assert UpperChar(m[k + 0]) != LabelPattern.lit[0];
      }
      NoLiteralNoMatch(m, k, LabelPattern);
    }
    FindNone(m, LabelPattern);
    assert RunLength(m, 0, Never, |m|) == 0;
    MatchToEnd(m, 0, PlainPattern, 0);
    FindAt(m, PlainPattern, 0);
  }

  /** `MAC:` followed by a colon-formatted MAC yields the formatted MAC. */
  lemma ExtractLabelledMac(m: string)
    requires IsMacDigits(m)
    ensures ExtractMACFromQR("MAC:" + MacUtils.FormatMAC(m)) == Some(MacUtils.FormatMAC(m))
  {
    var f := MacUtils.FormatMAC(m);
    var qr := "MAC:" + f;
    MacUtils.FormattedIsHexOrColon(m);
    MacUtils.CleanMacDigits(m);
    assert LiteralAt(qr, 0, "MAC");
    assert qr[4] == f[0] == m[0];
    assert RunLength(qr, 4, IsColonOrSpace, |qr| - 4) == 0;
    assert RunLength(qr, 3, IsColonOrSpace, |qr| - 3) == 1;
    MatchToEnd(qr, 0, LabelPattern, 1);
    FindAt(qr, LabelPattern, 0);
    assert qr[4..] == f;
  }

  /** The dialog accepts a colon-formatted MAC as it stands. */
  lemma FormattedAccepted(m: string)
    requires IsMacDigits(m)
    ensures IsAcceptedMac(MacUtils.FormatMAC(m))
  {
    MacUtils.CleanMacDigits(m);
    MacUtils.CleanIsCompact(m);
    assert ValidateMAC(m).Valid? && ValidateMAC(m).formatted == MacUtils.FormatMAC(m);
    RevalidateAccepted(m);
  }

  datatype Step = ScannerStep | ManualStep | FormStep

  datatype AlertKind = NoAlert | InvalidQR | InvalidMAC | SuccessAlert

  datatype PendingAlert = PendingAlert(kind: AlertKind, message: Option<string>, deviceName: Option<string>)

  const NoPendingAlert := PendingAlert(NoAlert, None, None)

  /** `DevicePriority`: 1 to 5. */
  type Priority = p: int | 1 <= p <= 5 witness 3

  const DEFAULT_PRIORITY: Priority := 3

  /** The payload sent to create the device and associate it. */
  datatype DeviceRequest = DeviceRequest(name: string, mac: string, priority: Priority)

  class AddDeviceFlow {
    var step: Step
    var scannedMAC: Option<string>
    var name: string
    var priority: Priority
    var manualMAC: string
    var alert: PendingAlert
    var showMainModal: bool
    var scannerKey: nat

    /**
     * The form is only ever open on a MAC the dialog accepted; the main
     * dialog is shown exactly when no alert is pending.
     */
    ghost predicate Valid()
      reads this
    {
      && (step == FormStep ==> scannedMAC.Some?)
      && (scannedMAC.Some? ==> IsAcceptedMac(scannedMAC.value))
      && (showMainModal <==> alert.kind == NoAlert)
      && (alert.kind == NoAlert ==> alert == NoPendingAlert)
    }

    constructor ()
      ensures Valid()
      ensures step == ScannerStep && scannedMAC == None && name == "" && priority == DEFAULT_PRIORITY
      ensures manualMAC == "" && alert == NoPendingAlert && showMainModal && scannerKey == 0
    {
      step := ScannerStep;
      scannedMAC := None;
      name := "";
      priority := DEFAULT_PRIORITY;
      manualMAC := "";
      alert := NoPendingAlert;
      showMainModal := true;
      scannerKey := 0;
    }

    /** `resetForm`: back to the scanner with empty fields and a fresh scanner. */
    method ResetForm()
      requires Valid()
      modifies this
      ensures Valid()
      ensures step == ScannerStep && scannedMAC == None && name == "" && priority == DEFAULT_PRIORITY
      ensures manualMAC == "" && scannerKey == old(scannerKey) + 1
      ensures alert == old(alert) && showMainModal == old(showMainModal)
    {
      step := ScannerStep;
      scannedMAC := None;
      name := "";
      priority := DEFAULT_PRIORITY;
      manualMAC := "";
      scannerKey := scannerKey + 1;
    }

    /**
     * `handleClose`: a pending alert is dismissed and the dialog stays open;
     * otherwise the dialog closes (`closed`) and, once the close delay has
     * passed, the form is reset and the main dialog shown again.
     */
    method HandleClose() returns (closed: bool)
      requires Valid()
      modifies this
      ensures Valid()
      ensures closed <==> old(alert.kind) == NoAlert
      ensures alert == NoPendingAlert && showMainModal
      ensures !closed ==>
        && step == old(step) && scannedMAC == old(scannedMAC) && name == old(name) && priority == old(priority)
        && manualMAC == old(manualMAC) && scannerKey == old(scannerKey)
      ensures closed ==>
        && step == ScannerStep && scannedMAC == None && name == "" && priority == DEFAULT_PRIORITY
        && manualMAC == "" && scannerKey == old(scannerKey) + 1
    {
      if alert.kind != NoAlert {
        alert := NoPendingAlert;
        showMainModal := true;
        return false;
      }
      ResetForm();
      showMainModal := true;
      return true;
    }

    /** `showAlert`: hide the main dialog and show the alert. */
    method ShowAlert(kind: AlertKind, message: Option<string>, deviceName: Option<string>)
      requires Valid() && kind != NoAlert
      modifies this
      ensures Valid()
      ensures alert == PendingAlert(kind, message, deviceName) && !showMainModal
      ensures step == old(step) && scannedMAC == old(scannedMAC) && name == old(name) && priority == old(priority)
      ensures manualMAC == old(manualMAC) && scannerKey == old(scannerKey)
    {
      showMainModal := false;
      alert := PendingAlert(kind, message, deviceName);
    }

    /**
     * `handleQRScan`: no MAC in the code raises the invalid-QR alert, a MAC
     * that fails the check the invalid-MAC alert; otherwise the formatted MAC
     * is taken over and the form opens. Only that path changes the step.
     */
    method HandleQRScan(data: string)
      requires Valid()
      modifies this
      ensures Valid()
      ensures name == old(name) && priority == old(priority) && manualMAC == old(manualMAC) && scannerKey == old(scannerKey)
      ensures ExtractMACFromQR(data).None? ==>
        && alert == PendingAlert(InvalidQR, Some(MSG_INVALID_QR), None) && !showMainModal
        && step == old(step) && scannedMAC == old(scannedMAC)
      ensures ExtractMACFromQR(data).Some? && ValidateMAC(ExtractMACFromQR(data).value).Invalid? ==>
        && alert == PendingAlert(InvalidMAC, Some(MSG_NOT_VTAG), None) && !showMainModal
        && step == old(step) && scannedMAC == old(scannedMAC)
      ensures ExtractMACFromQR(data).Some? && ValidateMAC(ExtractMACFromQR(data).value).Valid? ==>
        && step == FormStep && scannedMAC == Some(ValidateMAC(ExtractMACFromQR(data).value).formatted)
        && alert == old(alert) && showMainModal == old(showMainModal)
    {
      var extracted := ExtractMACFromQR(data);
      if extracted.None? {
        ShowAlert(InvalidQR, Some(MSG_INVALID_QR), None);
        return;
      }
      var validation := ValidateMAC(extracted.value);
      if !validation.Valid? {
        ShowAlert(InvalidMAC, Some(MSG_NOT_VTAG), None);
        return;
      }
      RevalidateAccepted(extracted.value);
      OpenForm(validation.formatted);
    }

    /** `handleManualSubmit`: the same check on the typed MAC. */
    method HandleManualSubmit()
      requires Valid()
      modifies this
      ensures Valid()
      ensures name == old(name) && priority == old(priority) && manualMAC == old(manualMAC) && scannerKey == old(scannerKey)
      ensures ValidateMAC(old(manualMAC)).Invalid? ==>
        && alert == PendingAlert(InvalidMAC, Some(MSG_NOT_VTAG), None) && !showMainModal
        && step == old(step) && scannedMAC == old(scannedMAC)
      ensures ValidateMAC(old(manualMAC)).Valid? ==>
        && step == FormStep && scannedMAC == Some(ValidateMAC(old(manualMAC)).formatted)
        && alert == old(alert) && showMainModal == old(showMainModal)
    {
      var validation := ValidateMAC(manualMAC);
      if !validation.Valid? {
        ShowAlert(InvalidMAC, Some(MSG_NOT_VTAG), None);
        return;
      }
      RevalidateAccepted(manualMAC);
      OpenForm(validation.formatted);
    }

    /** The success path of both checks: take the accepted MAC over and open the form. */
    method OpenForm(mac: string)
      requires Valid() && IsAcceptedMac(mac)
      modifies this
      ensures Valid()
      ensures step == FormStep && scannedMAC == Some(mac)
      ensures name == old(name) && priority == old(priority) && manualMAC == old(manualMAC)
      ensures alert == old(alert) && showMainModal == old(showMainModal) && scannerKey == old(scannerKey)
    {
      scannedMAC := Some(mac);
      step := FormStep;
    }

    /**
     * `handleFormSubmit`: nothing without a MAC or with a blank name;
     * otherwise the request carries the trimmed name, the MAC as twelve
     * upper-case hex digits and the priority, and a created device raises the
     * success alert. `created` is the backend's answer.
     */
    method HandleFormSubmit(created: bool) returns (request: Option<DeviceRequest>)
      requires Valid()
      modifies this
      ensures Valid()
      ensures request.None? <==> old(scannedMAC).None? || old(scannedMAC).value == "" || Trim(old(name)) == ""
      ensures request.Some? ==>
        && request.value == DeviceRequest(Trim(old(name)), Compact(old(scannedMAC).value), old(priority))
        && IsMacDigits(request.value.mac)
      ensures request.Some? && created ==>
        alert == PendingAlert(SuccessAlert, None, Some(Trim(old(name)))) && !showMainModal
      ensures request.None? || !created ==> alert == old(alert) && showMainModal == old(showMainModal)
      ensures step == old(step) && scannedMAC == old(scannedMAC) && name == old(name) && priority == old(priority)
      ensures manualMAC == old(manualMAC) && scannerKey == old(scannerKey)
    {
      if scannedMAC.None? || scannedMAC.value == "" || Trim(name) == "" {
        return None;
      }
      request := Some(DeviceRequest(Trim(name), Compact(scannedMAC.value), priority));
      if created {
        ShowAlert(SuccessAlert, None, Some(Trim(name)));
      }
    }

    /**
     * `handleCancel`: from manual entry back to the scanner with the typed MAC
     * cleared; from the form back to the scanner with the MAC, name and
     * priority reset; from the scanner it closes like `handleClose`.
     */
    method HandleCancel() returns (closed: bool)
      requires Valid()
      modifies this
      ensures Valid()
      ensures old(step) == ManualStep ==>
        && !closed && step == ScannerStep && manualMAC == ""
        && scannedMAC == old(scannedMAC) && name == old(name) && priority == old(priority)
        && alert == old(alert) && showMainModal == old(showMainModal) && scannerKey == old(scannerKey)
      ensures old(step) == FormStep ==>
        && !closed && step == ScannerStep && scannedMAC == None && name == "" && priority == DEFAULT_PRIORITY
        && manualMAC == old(manualMAC) && alert == old(alert) && showMainModal == old(showMainModal)
        && scannerKey == old(scannerKey)
      ensures old(step) == ScannerStep ==>
        && (closed <==> old(alert.kind) == NoAlert) && alert == NoPendingAlert && showMainModal
        && (!closed ==>
              && scannedMAC == old(scannedMAC) && name == old(name) && priority == old(priority)
              && manualMAC == old(manualMAC) && scannerKey == old(scannerKey))
        && (closed ==>
              && scannedMAC == None && name == "" && priority == DEFAULT_PRIORITY && manualMAC == ""
              && scannerKey == old(scannerKey) + 1)
      ensures step == ScannerStep
    {
      if step == ManualStep {
        step := ScannerStep;
        manualMAC := "";
        closed := false;
      } else if step == FormStep {
        step := ScannerStep;
        scannedMAC := None;
        name := "";
        priority := DEFAULT_PRIORITY;
        closed := false;
      } else {
        closed := HandleClose();
      }
    }

    /** `handleInvalidQRClose`: dismiss the alert and restart the scanner. */
    method HandleInvalidQRClose()
      requires Valid()
      modifies this
      ensures Valid()
      ensures alert == NoPendingAlert && showMainModal && scannerKey == old(scannerKey) + 1
      ensures step == old(step) && scannedMAC == old(scannedMAC) && name == old(name) && priority == old(priority)
      ensures manualMAC == old(manualMAC)
    {
      alert := NoPendingAlert;
      showMainModal := true;
      scannerKey := scannerKey + 1;
    }

    /** `handleInvalidMACClose`: dismiss the alert and offer manual entry with an empty field. */
    method HandleInvalidMACClose()
      requires Valid()
      modifies this
      ensures Valid()
      ensures alert == NoPendingAlert && showMainModal && manualMAC == "" && step == ManualStep
      ensures scannedMAC == old(scannedMAC) && name == old(name) && priority == old(priority)
      ensures scannerKey == old(scannerKey)
    {
      alert := NoPendingAlert;
      showMainModal := true;
      manualMAC := "";
      step := ManualStep;
    }

    /** `handleSuccessClose`: dismiss the alert, close the dialog and reset the form. */
    method HandleSuccessClose()
      requires Valid()
      modifies this
      ensures Valid()
      ensures alert == NoPendingAlert && showMainModal
      ensures step == ScannerStep && scannedMAC == None && name == "" && priority == DEFAULT_PRIORITY
      ensures manualMAC == "" && scannerKey == old(scannerKey) + 1
    {
      alert := NoPendingAlert;
      showMainModal := true;
      ResetForm();
    }

    /** The "enter manually" button of the scanner step. */
    method ChooseManualEntry()
      requires Valid()
      modifies this
      ensures Valid()
      ensures step == ManualStep
      ensures scannedMAC == old(scannedMAC) && name == old(name) && priority == old(priority)
      ensures manualMAC == old(manualMAC) && alert == old(alert) && showMainModal == old(showMainModal)
      ensures scannerKey == old(scannerKey)
    {
      step := ManualStep;
    }

    /** Typing into the form: the MAC field, the name field, the priority picker. */
    method EditFields(newManualMAC: string, newName: string, newPriority: Priority)
      requires Valid()
      modifies this
      ensures Valid()
      ensures manualMAC == newManualMAC && name == newName && priority == newPriority
      ensures step == old(step) && scannedMAC == old(scannedMAC) && alert == old(alert)
      ensures showMainModal == old(showMainModal) && scannerKey == old(scannerKey)
    {
      manualMAC := newManualMAC;
      name := newName;
      priority := newPriority;
    }
  }

  /** A whole pass through the dialog: scan a labelled code, name the device, submit, close. */
  method AddDeviceScenario(m: string, deviceName: string)
    requires IsMacDigits(m) && Trim(deviceName) != ""
  {
    var flow := new AddDeviceFlow();
    ExtractLabelledMac(m);
    FormattedAccepted(m);
    var f := MacUtils.FormatMAC(m);
    flow.HandleQRScan("MAC:" + f);
    assert flow.step == FormStep && flow.scannedMAC == Some(f);
    flow.EditFields("", deviceName, 2);
    var request := flow.HandleFormSubmit(true);
    assert request.Some? && request.value.priority == 2 && IsMacDigits(request.value.mac);
    assert flow.alert.kind == SuccessAlert && !flow.showMainModal;
    flow.HandleSuccessClose();
    assert flow.step == ScannerStep && flow.scannedMAC == None && flow.showMainModal;
  }
}
