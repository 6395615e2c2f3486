/**
 * The mapping from the operating system's answers about Bluetooth and location
 * permissions to the `BlePermissions` record the scanner and the screens read.
 * The OS answers are parameters: what `PermissionsAndroid.check` returned for
 * each permission, and what `request`/`requestMultiple` returned (or that it threw).
 */
module BlePermissions {

  /** `Platform.OS`, with `Platform.Version` for everything that is not iOS. */
  datatype Platform = IOS | Android(apiLevel: int)

  /** One answer of `PermissionsAndroid.request`. */
  datatype RequestResult = Granted | Denied | NeverAskAgain

  /** What `PermissionsAndroid.check` answered for each permission. */
  datatype CheckAnswers = CheckAnswers(scan: bool, connect: bool, location: bool)

  /**
   * What the request call produced: the three answers of `requestMultiple`
   * (API 31 and later; below 31 only `location` is asked for), or a thrown error.
   */
  datatype RequestAnswers = Answered(scan: RequestResult, connect: RequestResult, location: RequestResult) | Threw

  datatype Permissions = Permissions(
    bluetooth: bool,
    bluetoothScan: bool,
    bluetoothConnect: bool,
    location: bool,
    allGranted: bool,
    canAskAgain: bool)

  /** Android 12 (API 31) split Bluetooth access into scan and connect permissions. */
  const SPLIT_PERMISSIONS_API := 31

  const AllTrue := Permissions(true, true, true, true, true, true)
  const AllFalse := Permissions(false, false, false, false, false, false)

  /** `checkiOS`: the system handles Bluetooth access itself, so everything is reported granted. */
  function CheckIOS(): (p: Permissions)
    ensures p.allGranted && p.canAskAgain && p.bluetooth && p.bluetoothScan && p.bluetoothConnect && p.location
  {
    AllTrue
  }

  /** `requestiOS`: the same record as `checkiOS`. */
  function RequestIOS(): (p: Permissions)
    ensures p == CheckIOS()
  {
    AllTrue
  }

  /** `checkAndroid`: both branches report `canAskAgain` true (only a request can tell otherwise). */
  function CheckAndroid(apiLevel: int, answers: CheckAnswers): (p: Permissions)
    ensures p.canAskAgain && p.bluetooth
    ensures p.location == answers.location
    ensures apiLevel >= SPLIT_PERMISSIONS_API ==>
      p.allGranted == (answers.scan && answers.connect && answers.location)
      && p.bluetoothScan == answers.scan && p.bluetoothConnect == answers.connect
    ensures apiLevel < SPLIT_PERMISSIONS_API ==>
      p.allGranted == answers.location && p.bluetoothScan && p.bluetoothConnect
  {
    if apiLevel >= SPLIT_PERMISSIONS_API then
      var allGranted := answers.scan && answers.connect && answers.location;
      Permissions(true, answers.scan, answers.connect, answers.location, allGranted,
                  if allGranted then true else true)
    else
      Permissions(true, true, true, answers.location, answers.location,
                  if answers.location then true else true)
  }

  /**
   * `requestAndroid`: a permission counts as granted only on `'granted'`;
   * asking again is ruled out only by a `'never_ask_again'` answer; an error
   * while requesting clears every flag, `canAskAgain` included.
   */
  function RequestAndroid(apiLevel: int, answers: RequestAnswers): (p: Permissions)
    ensures answers.Threw? ==> p == AllFalse
    ensures answers.Answered? && apiLevel >= SPLIT_PERMISSIONS_API ==>
      && p.bluetooth
      && p.bluetoothScan == (answers.scan == Granted)
      && p.bluetoothConnect == (answers.connect == Granted)
      && p.location == (answers.location == Granted)
      && p.allGranted == (answers.scan == Granted && answers.connect == Granted && answers.location == Granted)
      && (!p.canAskAgain <==> (answers.scan == NeverAskAgain || answers.connect == NeverAskAgain
                               || answers.location == NeverAskAgain))
    ensures answers.Answered? && apiLevel < SPLIT_PERMISSIONS_API ==>
      && p.bluetooth && p.bluetoothScan && p.bluetoothConnect
      && p.location == (answers.location == Granted)
      && p.allGranted == p.location
      && (!p.canAskAgain <==> answers.location == NeverAskAgain)
  {
    match answers
    case Threw => AllFalse
    case Answered(scanResult, connectResult, locationResult) =>
      if apiLevel >= SPLIT_PERMISSIONS_API then
        var bluetoothScan := scanResult == Granted;
        var bluetoothConnect := connectResult == Granted;
        var location := locationResult == Granted;
        var hasNeverAskAgain :=
          scanResult == NeverAskAgain || connectResult == NeverAskAgain || locationResult == NeverAskAgain;
        Permissions(true, bluetoothScan, bluetoothConnect, location,
                    bluetoothScan && bluetoothConnect && location, !hasNeverAskAgain)
      else
        var location := locationResult == Granted;
        Permissions(true, true, true, location, location, locationResult != NeverAskAgain)
  }

  /** `BlePermissionsService.check()` */
  function Check(platform: Platform, answers: CheckAnswers): Permissions
  {
    match platform
    case IOS => CheckIOS()
    case Android(api) => CheckAndroid(api, answers)
  }

  /** `BlePermissionsService.request()` */
  function Request(platform: Platform, answers: RequestAnswers): Permissions
  {
    match platform
    case IOS => RequestIOS()
    case Android(api) => RequestAndroid(api, answers)
  }

  /** A check never says that the user can no longer be asked, whatever the platform. */
  lemma CheckAlwaysAllowsAsking(platform: Platform, answers: CheckAnswers)
    ensures Check(platform, answers).canAskAgain
  {
  }

  /** A request that grants everything also leaves asking possible; a plain denial never rules it out. */
  lemma RequestGrantedOrSoftDenied(platform: Platform, answers: RequestAnswers)
    ensures Request(platform, answers).allGranted ==> Request(platform, answers).canAskAgain
    ensures (answers.Answered? && answers.scan != NeverAskAgain && answers.connect != NeverAskAgain
             && answers.location != NeverAskAgain) ==> Request(platform, answers).canAskAgain
  {
  }

  /**
   * When `check` and `request` see the same grants, they agree on every flag
   * except `canAskAgain`: the check forgets a `'never_ask_again'` answer, so
   * after a permanent denial a later check still reports that asking is possible.
   */
  lemma CheckForgetsPermanentDenial(platform: Platform, scan: RequestResult, connect: RequestResult, location: RequestResult)
    ensures var req := Request(platform, Answered(scan, connect, location));
      var chk := Check(platform, CheckAnswers(scan == Granted, connect == Granted, location == Granted));
      && req.(canAskAgain := true) == chk
      && chk.canAskAgain
  {
  }
}
