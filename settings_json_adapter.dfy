/**
 * The settings codec: writes a Settings record as one JSON object with a
 * fixed, ordered list of members, and reads one back by dispatching each
 * member, in document order, on its name.
 *
 * The specification functions (ReadField, ReadFields, Decode, Encode) say
 * what a read or a write yields; the methods Read, ReadVaultSettingsArray,
 * Write and WriteVaultSettingsArray do it step by step, as the adapter does,
 * and are proved to agree with them.
 */
module SettingsJsonAdapter {
  import opened Wrappers
  import opened Json
  import opened VaultSettingsCodec
  import opened SettingsRecord

  // ---------------------------------------------------------------------
  // Typed reads of one value (the streaming reader's nextBoolean, nextInt
  // and nextString): a value of another type is an error.
  // ---------------------------------------------------------------------

  /** A boolean value is read as itself; anything else is an error naming the member. */
  function NextBoolean(name: string, v: JsonValue): (r: Result<bool, ReadError>)
    ensures r.Ok? <==> v.JBool?
    ensures r.Ok? ==> r.value == v.b
    ensures r.Err? ==> r.error == ExpectedBoolean(name)
  {
    if v.JBool? then Ok(v.b) else Err(ExpectedBoolean(name))
  }

  /** A number in the 32-bit range is read as itself; a non-number or a number out of range is an error. */
  function NextInt(name: string, v: JsonValue): (r: Result<int32, ReadError>)
    ensures r.Ok? <==> v.JNumber? && -0x8000_0000 <= v.n < 0x8000_0000
    ensures r.Ok? ==> r.value as int == v.n
    ensures !v.JNumber? ==> r == Err(ExpectedNumber(name))
    ensures v.JNumber? && r.Err? ==> r.error == NumberOutOfRange(name)
  {
    if !v.JNumber? then Err(ExpectedNumber(name))
    else if -0x8000_0000 <= v.n < 0x8000_0000 then Ok(v.n as int32)
    else Err(NumberOutOfRange(name))
  }

  /** A string value is read as itself; anything else is an error naming the member. */
  function NextString(name: string, v: JsonValue): (r: Result<string, ReadError>)
    ensures r.Ok? <==> v.JString?
    ensures r.Ok? ==> r.value == v.s
    ensures r.Err? ==> r.error == ExpectedString(name)
  {
    if v.JString? then Ok(v.s) else Err(ExpectedString(name))
  }

  // ---------------------------------------------------------------------
  // Enum parsing with a fallback
  // ---------------------------------------------------------------------

  /** ASCII upper-casing of one character. */
  function UpperChar(c: char): char {
    if 'a' <= c <= 'z' then (c as int - 32) as char else c
  }

  /**
   * `String.toUpperCase`, restricted to ASCII letters: each lower-case letter
   * becomes its capital, every other character is kept, and no lower-case
   * letter is left.
   */
  function ToUpper(s: string): (u: string)
    ensures |u| == |s|
    ensures forall i :: 0 <= i < |s| ==>
      if 'a' <= s[i] <= 'z' then u[i] as int == s[i] as int - 32 && 'A' <= u[i] <= 'Z' else u[i] == s[i]
    ensures forall i :: 0 <= i < |u| ==> !('a' <= u[i] <= 'z')
  {
    seq(|s|, i requires 0 <= i < |s| => UpperChar(s[i]))
  }

  /**
   * The theme whose name is the upper-cased input; when no theme has that
   * name, the default theme instead of a failure.
   */
  function ParseUiTheme(uiThemeName: string): (t: UiTheme)
    ensures t.Name() == ToUpper(uiThemeName)
         || (t == DefaultTheme && forall u: UiTheme :: u.Name() != ToUpper(uiThemeName))
  {
    match ToUpper(uiThemeName)
    case "LIGHT" => LIGHT
    case "DARK" => DARK
    case "AUTOMATIC" => AUTOMATIC
    case _ => DefaultTheme
  }

  /**
   * The orientation whose name is the upper-cased input; when no orientation
   * has that name, the default orientation instead of a failure.
   */
  function ParseUiOrientation(uiOrientationName: string): (o: NodeOrientation)
    ensures o.Name() == ToUpper(uiOrientationName)
         || (o == DefaultUserInterfaceOrientation
             && forall u: NodeOrientation :: u.Name() != ToUpper(uiOrientationName))
  {
    match ToUpper(uiOrientationName)
    case "LEFT_TO_RIGHT" => LEFT_TO_RIGHT
    case "RIGHT_TO_LEFT" => RIGHT_TO_LEFT
    case "INHERIT" => INHERIT
    case _ => DefaultUserInterfaceOrientation
  }

  // ---------------------------------------------------------------------
  // Legacy (1.6.x) volume implementation -> mount service
  // ---------------------------------------------------------------------

  const DokanyMountProvider := "org.cryptomator.frontend.dokany.mount.DokanyMountProvider"
  const WinFspNetworkMountProvider := "org.cryptomator.frontend.fuse.mount.WinFspNetworkMountProvider"
  const MacFuseMountProvider := "org.cryptomator.frontend.fuse.mount.MacFuseMountProvider"
  const LinuxFuseMountProvider := "org.cryptomator.frontend.fuse.mount.LinuxFuseMountProvider"
  const WindowsMounter := "org.cryptomator.frontend.webdav.mount.WindowsMounter"
  const MacAppleScriptMounter := "org.cryptomator.frontend.webdav.mount.MacAppleScriptMounter"
  const LinuxGioMounter := "org.cryptomator.frontend.webdav.mount.LinuxGioMounter"

  /** Every identifier the legacy conversion can produce. */
  const LegacyMountServices: set<string> := {
    DokanyMountProvider,
    WinFspNetworkMountProvider, MacFuseMountProvider, LinuxFuseMountProvider,
    WindowsMounter, MacAppleScriptMounter, LinuxGioMounter
  }

  /**
   * Maps an old volume implementation ("Dokany", "FUSE" or anything else,
   * which meant WebDAV) to the mount service that replaces it on this OS.
   * Total: every string gives an identifier, and only "Dokany" gives Dokany's.
   */
  function ConvertLegacyVolumeImplToMountService(volumeImpl: string, os: OS): (mountService: string)
    ensures mountService in LegacyMountServices
    ensures mountService == DokanyMountProvider <==> volumeImpl == "Dokany"
  {
    if volumeImpl == "Dokany" then
      DokanyMountProvider
    else if volumeImpl == "FUSE" then
      if os.Windows? then WinFspNetworkMountProvider
      else if os.Mac? then MacFuseMountProvider
      else LinuxFuseMountProvider
    else
      if os.Windows? then WindowsMounter
      else if os.Mac? then MacAppleScriptMounter
      else LinuxGioMounter
  }

  // ---------------------------------------------------------------------
  // Reading: one member, a run of members, a whole document
  // ---------------------------------------------------------------------

  /**
   * The case labels of the reader's switch, one per member name it
   * dispatches on; a member with any other name is skipped.
   */
  datatype Field =
    | WrittenByVersion | Directories
    | AskedForUpdateCheck | AutoCloseVaults | CheckForUpdatesEnabled | DebugMode
    | DisplayConfiguration | KeychainProvider | Language | LicenseKey | MountService
    | NumTrayNotifications | Port
    | ShowMinimizeButton | ShowTrayIcon | StartHidden
    | Theme | UiOrientation | UseKeychain
    | WindowHeight | WindowWidth | WindowXPosition | WindowYPosition
    | PreferredVolumeImpl
  {
    /** The member name the case label matches. */
    function Name(): string {
      match this
      case WrittenByVersion => "writtenByVersion"
      case Directories => "directories"
      case AskedForUpdateCheck => "askedForUpdateCheck"
      case AutoCloseVaults => "autoCloseVaults"
      case CheckForUpdatesEnabled => "checkForUpdatesEnabled"
      case DebugMode => "debugMode"
      case DisplayConfiguration => "displayConfiguration"
      case KeychainProvider => "keychainProvider"
      case Language => "language"
      case LicenseKey => "licenseKey"
      case MountService => "mountService"
      case NumTrayNotifications => "numTrayNotifications"
      case Port => "port"
      case ShowMinimizeButton => "showMinimizeButton"
      case ShowTrayIcon => "showTrayIcon"
      case StartHidden => "startHidden"
      case Theme => "theme"
      case UiOrientation => "uiOrientation"
      case UseKeychain => "useKeychain"
      case WindowHeight => "windowHeight"
      case WindowWidth => "windowWidth"
      case WindowXPosition => "windowXPosition"
      case WindowYPosition => "windowYPosition"
      case PreferredVolumeImpl => "preferredVolumeImpl"
    }
  }

  /** The switch's lookup: the case label whose name is exactly `name`, if any. */
  function FieldNamed(name: string): (f: Option<Field>)
    ensures f.None? ==> forall g: Field :: g.Name() != name
  {
    match name
    case "writtenByVersion" => Some(WrittenByVersion)
    case "directories" => Some(Directories)
    case "askedForUpdateCheck" => Some(AskedForUpdateCheck)
    case "autoCloseVaults" => Some(AutoCloseVaults)
    case "checkForUpdatesEnabled" => Some(CheckForUpdatesEnabled)
    case "debugMode" => Some(DebugMode)
    case "displayConfiguration" => Some(DisplayConfiguration)
    case "keychainProvider" => Some(KeychainProvider)
    case "language" => Some(Language)
    case "licenseKey" => Some(LicenseKey)
    case "mountService" => Some(MountService)
    case "numTrayNotifications" => Some(NumTrayNotifications)
    case "port" => Some(Port)
    case "showMinimizeButton" => Some(ShowMinimizeButton)
    case "showTrayIcon" => Some(ShowTrayIcon)
    case "startHidden" => Some(StartHidden)
    case "theme" => Some(Theme)
    case "uiOrientation" => Some(UiOrientation)
    case "useKeychain" => Some(UseKeychain)
    case "windowHeight" => Some(WindowHeight)
    case "windowWidth" => Some(WindowWidth)
    case "windowXPosition" => Some(WindowXPosition)
    case "windowYPosition" => Some(WindowYPosition)
    case "preferredVolumeImpl" => Some(PreferredVolumeImpl)
    case _ => None
  }

  /** What the read accumulates: the settings, and the legacy volume implementation if one was seen. */
  datatype ReadState = ReadState(settings: Settings, volumeImpl: Option<string>)

  /**
   * Whether `value` has the shape the member `field` is read as: a boolean,
   * a 32-bit integer, a string, or an array of vault objects; the version
   * stamp is skipped whatever it holds.
   */
  predicate Accepts(field: Field, value: JsonValue) {
    match field
    case WrittenByVersion => true
    case Directories =>
      value.JArray? && forall k :: 0 <= k < |value.items| ==> value.items[k].JObject?
    case AskedForUpdateCheck | AutoCloseVaults | CheckForUpdatesEnabled | DebugMode
       | ShowMinimizeButton | ShowTrayIcon | StartHidden | UseKeychain =>
      value.JBool?
    case NumTrayNotifications | Port | WindowHeight | WindowWidth | WindowXPosition | WindowYPosition =>
      value.JNumber? && -0x8000_0000 <= value.n < 0x8000_0000
    case DisplayConfiguration | KeychainProvider | Language | LicenseKey
       | MountService | Theme | UiOrientation | PreferredVolumeImpl =>
      value.JString?
  }

  /** Whether the member `name: value` reads without error; unknown names are skipped, so always. */
  predicate Readable(name: string, value: JsonValue) {
    match FieldNamed(name)
    case None => true
    case Some(field) => Accepts(field, value)
  }

  /** Reads the vault entries of a `directories` array, in array order. */
  function DecodeVaultItems(items: seq<JsonValue>): (r: Result<seq<VaultSettings>, ReadError>)
    ensures r.Ok? <==> forall k :: 0 <= k < |items| ==> DecodeVault(items[k]).Ok?
    ensures r.Ok? ==>
      |r.value| == |items| && forall k :: 0 <= k < |items| ==> DecodeVault(items[k]) == Ok(r.value[k])
  {
    if |items| == 0 then Ok([])
    else
      var prior :- DecodeVaultItems(items[..|items| - 1]);
      var entry :- DecodeVault(items[|items| - 1]);
      Ok(prior + [entry])
  }

  /** The value of a `directories` member must be an array of entries. */
  function DecodeVaultArray(value: JsonValue): (r: Result<seq<VaultSettings>, ReadError>)
    ensures !value.JArray? ==> r == Err(ExpectedArray("directories"))
  {
    if value.JArray? then DecodeVaultItems(value.items) else Err(ExpectedArray("directories"))
  }

  /**
   * One turn of the read loop for a dispatched member: a scalar overwrites
   * its setting, `directories` appends, `preferredVolumeImpl` is only
   * remembered and the version stamp changes nothing.
   */
  function ReadKnownField(st: ReadState, field: Field, value: JsonValue): (r: Result<ReadState, ReadError>)
    ensures r.Ok? <==> Accepts(field, value)
  {
    var s := st.settings;
    var name := field.Name();
    match field
    case WrittenByVersion => Ok(st)
    case Directories =>
      var vs :- DecodeVaultArray(value);
      Ok(st.(settings := s.(directories := s.directories + vs)))
    case AskedForUpdateCheck =>
      var b :- NextBoolean(name, value);
      Ok(st.(settings := s.(askedForUpdateCheck := b)))
    case AutoCloseVaults =>
      var b :- NextBoolean(name, value);
      Ok(st.(settings := s.(autoCloseVaults := b)))
    case CheckForUpdatesEnabled =>
      var b :- NextBoolean(name, value);
      Ok(st.(settings := s.(checkForUpdates := b)))
    case DebugMode =>
      var b :- NextBoolean(name, value);
      Ok(st.(settings := s.(debugMode := b)))
    case DisplayConfiguration =>
      var t :- NextString(name, value);
      Ok(st.(settings := s.(displayConfiguration := t)))
    case KeychainProvider =>
      var t :- NextString(name, value);
      Ok(st.(settings := s.(keychainProvider := t)))
    case Language =>
      var t :- NextString(name, value);
      Ok(st.(settings := s.(language := t)))
    case LicenseKey =>
      var t :- NextString(name, value);
      Ok(st.(settings := s.(licenseKey := t)))
    case MountService =>
      // Only a string is taken; any other value is left unread, and the
      // reader then finds a value where the next member name should be.
      if value.JString? then Ok(st.(settings := s.(mountService := value.s)))
      else Err(ExpectedName(name))
    case NumTrayNotifications =>
      var n :- NextInt(name, value);
      Ok(st.(settings := s.(numTrayNotifications := n)))
    case Port =>
      var n :- NextInt(name, value);
      Ok(st.(settings := s.(port := n)))
    case ShowMinimizeButton =>
      var b :- NextBoolean(name, value);
      Ok(st.(settings := s.(showMinimizeButton := b)))
    case ShowTrayIcon =>
      var b :- NextBoolean(name, value);
      Ok(st.(settings := s.(showTrayIcon := b)))
    case StartHidden =>
      var b :- NextBoolean(name, value);
      Ok(st.(settings := s.(startHidden := b)))
    case Theme =>
      var t :- NextString(name, value);
      Ok(st.(settings := s.(theme := ParseUiTheme(t))))
    case UiOrientation =>
      var t :- NextString(name, value);
      Ok(st.(settings := s.(userInterfaceOrientation := ParseUiOrientation(t))))
    case UseKeychain =>
      var b :- NextBoolean(name, value);
      Ok(st.(settings := s.(useKeychain := b)))
    case WindowHeight =>
      var n :- NextInt(name, value);
      Ok(st.(settings := s.(windowHeight := n)))
    case WindowWidth =>
      var n :- NextInt(name, value);
      Ok(st.(settings := s.(windowWidth := n)))
    case WindowXPosition =>
      var n :- NextInt(name, value);
      Ok(st.(settings := s.(windowXPosition := n)))
    case WindowYPosition =>
      var n :- NextInt(name, value);
      Ok(st.(settings := s.(windowYPosition := n)))
    case PreferredVolumeImpl =>
      var v :- NextString(name, value);
      Ok(st.(volumeImpl := Some(v)))
  }

  /** One turn of the read loop: a member is dispatched on its name, and skipped if the name is unknown. */
  function ReadField(st: ReadState, name: string, value: JsonValue): (r: Result<ReadState, ReadError>)
    ensures r.Ok? <==> Readable(name, value)
  {
    match FieldNamed(name)
    case None => Ok(st)
    case Some(field) => ReadKnownField(st, field, value)
  }

  /** The read loop over the members `ms`, in document order, from `st`; it stops at the first error. */
  function ReadFields(ms: seq<Member>, st: ReadState): (r: Result<ReadState, ReadError>)
    ensures r.Ok? <==> forall i :: 0 <= i < |ms| ==> Readable(ms[i].0, ms[i].1)
  {
    if |ms| == 0 then Ok(st)
    else
      var prior :- ReadFields(ms[..|ms| - 1], st);
      ReadField(prior, ms[|ms| - 1].0, ms[|ms| - 1].1)
  }

  /** The migration run once the object is consumed: a remembered legacy value decides the mount service. */
  function Migrate(st: ReadState, os: OS): (s: Settings)
    ensures st.volumeImpl.None? ==> s == st.settings
    ensures st.volumeImpl.Some? ==>
      s.mountService == ConvertLegacyVolumeImplToMountService(st.volumeImpl.value, os)
      && s == st.settings.(mountService := s.mountService)
  {
    match st.volumeImpl
    case Some(volumeImpl) =>
      st.settings.(mountService := ConvertLegacyVolumeImplToMountService(volumeImpl, os))
    case None => st.settings
  }

  /**
   * Reads a whole document into a fresh `defaults` record. The document
   * must be an object, and it decodes exactly when each member is readable.
   */
  function Decode(doc: JsonValue, os: OS, defaults: Settings): (r: Result<Settings, ReadError>)
    ensures r.Ok? <==>
      doc.JObject? && forall i :: 0 <= i < |doc.members| ==> Readable(doc.members[i].0, doc.members[i].1)
    ensures !doc.JObject? ==> r == Err(ExpectedObject)
  {
    if !doc.JObject? then Err(ExpectedObject)
    else
      var st :- ReadFields(doc.members, ReadState(defaults, None));
      Ok(Migrate(st, os))
  }

  /** A `directories` member appends the entries of its array, or fails as reading the array does. */
  lemma ReadFieldOnDirectories(st: ReadState, value: JsonValue)
    ensures ReadField(st, "directories", value) ==
      match DecodeVaultArray(value)
      case Err(e) => Err(e)
      case Ok(vs) => Ok(st.(settings := st.settings.(directories := st.settings.directories + vs)))
  {
  }

  /** Once a prefix of the entries fails to read, the whole array fails with that error. */
  lemma {:induction false} DecodeVaultItemsKeepsError(items: seq<JsonValue>, k: nat)
    requires k <= |items| && DecodeVaultItems(items[..k]).Err?
    ensures DecodeVaultItems(items) == DecodeVaultItems(items[..k])
    decreases |items| - k
  {
    if k == |items| {
      assert items[..k] == items;
    } else {
      assert items[..k + 1][..k] == items[..k];
      DecodeVaultItemsKeepsError(items, k + 1);
    }
  }

  /** Once a prefix of the members fails to read, the whole object fails with that error. */
  lemma {:induction false} ReadFieldsKeepsError(ms: seq<Member>, k: nat, st: ReadState)
    requires k <= |ms| && ReadFields(ms[..k], st).Err?
    ensures ReadFields(ms, st) == ReadFields(ms[..k], st)
    decreases |ms| - k
  {
    if k == |ms| {
      assert ms[..k] == ms;
    } else {
      assert ms[..k + 1][..k] == ms[..k];
      ReadFieldsKeepsError(ms, k + 1, st);
    }
  }

  // ---------------------------------------------------------------------
  // Writing
  // ---------------------------------------------------------------------

  /** The `writtenByVersion` stamp: the app version, then `-` and the build number when there is one. */
  function VersionStamp(appVersion: string, buildNumber: Option<string>): (stamp: string)
    ensures |appVersion| <= |stamp| && stamp[..|appVersion|] == appVersion
    ensures stamp[|appVersion|..] == if buildNumber.Some? then "-" + buildNumber.value else ""
  {
    appVersion + match buildNumber case Some(b) => "-" + b case None => ""
  }

  /** The vault entries as nested objects, in collection order. */
  function EncodeVaultArray(vs: seq<VaultSettings>): (items: seq<JsonValue>)
    ensures |items| == |vs| && forall k :: 0 <= k < |vs| ==> items[k] == EncodeVault(vs[k])
  {
    if |vs| == 0 then [] else EncodeVaultArray(vs[..|vs| - 1]) + [EncodeVault(vs[|vs| - 1])]
  }

  /** The members the writer emits, named by their case labels, in the order it emits them. */
  const WrittenFields: seq<Field> := [
    WrittenByVersion, Directories,
    AskedForUpdateCheck, AutoCloseVaults, CheckForUpdatesEnabled, DebugMode,
    DisplayConfiguration, KeychainProvider, Language, LicenseKey, MountService,
    NumTrayNotifications, Port,
    ShowMinimizeButton, ShowTrayIcon, StartHidden,
    Theme, UiOrientation, UseKeychain,
    WindowHeight, WindowWidth, WindowXPosition, WindowYPosition
  ]

  /**
   * The document the writer produces: one object with one member per
   * entry of WrittenFields, in that order; enums are written by name.
   */
  function Encode(value: Settings, appVersion: string, buildNumber: Option<string>): (doc: JsonValue)
    ensures doc.JObject? && |doc.members| == |WrittenFields|
  {
    JObject([
      ("writtenByVersion", JString(VersionStamp(appVersion, buildNumber))),
      ("directories", JArray(EncodeVaultArray(value.directories))),
      ("askedForUpdateCheck", JBool(value.askedForUpdateCheck)),
      ("autoCloseVaults", JBool(value.autoCloseVaults)),
      ("checkForUpdatesEnabled", JBool(value.checkForUpdates)),
      ("debugMode", JBool(value.debugMode)),
      ("displayConfiguration", JString(value.displayConfiguration)),
      ("keychainProvider", JString(value.keychainProvider)),
      ("language", JString(value.language)),
      ("licenseKey", JString(value.licenseKey)),
      ("mountService", JString(value.mountService)),
      ("numTrayNotifications", JNumber(value.numTrayNotifications as int)),
      ("port", JNumber(value.port as int)),
      ("showMinimizeButton", JBool(value.showMinimizeButton)),
      ("showTrayIcon", JBool(value.showTrayIcon)),
      ("startHidden", JBool(value.startHidden)),
      ("theme", JString(value.theme.Name())),
      ("uiOrientation", JString(value.userInterfaceOrientation.Name())),
      ("useKeychain", JBool(value.useKeychain)),
      ("windowHeight", JNumber(value.windowHeight as int)),
      ("windowWidth", JNumber(value.windowWidth as int)),
      ("windowXPosition", JNumber(value.windowXPosition as int)),
      ("windowYPosition", JNumber(value.windowYPosition as int))
    ])
  }

  // ---------------------------------------------------------------------
  // The adapter's methods
  // ---------------------------------------------------------------------

  /** Emits the vault entries one by one into an array. */
  method WriteVaultSettingsArray(vaultSettings: seq<VaultSettings>) returns (out: JsonValue)
    ensures out == JArray(EncodeVaultArray(vaultSettings))
  {
    var items: seq<JsonValue> := [];
    for i := 0 to |vaultSettings|
      invariant items == EncodeVaultArray(vaultSettings[..i])
    {
      assert vaultSettings[..i + 1][..i] == vaultSettings[..i];
      items := items + [EncodeVault(vaultSettings[i])];
    }
    assert vaultSettings[..|vaultSettings|] == vaultSettings;
    out := JArray(items);
  }

  /** Emits the settings member by member into one object. */
  method Write(value: Settings, appVersion: string, buildNumber: Option<string>) returns (doc: JsonValue)
    ensures doc == Encode(value, appVersion, buildNumber)
  {
    var out: seq<Member> := [];
    out := out + [("writtenByVersion", JString(VersionStamp(appVersion, buildNumber)))];
    var directories := WriteVaultSettingsArray(value.directories);
    out := out + [("directories", directories)];
    out := out + [("askedForUpdateCheck", JBool(value.askedForUpdateCheck))];
    out := out + [("autoCloseVaults", JBool(value.autoCloseVaults))];
    out := out + [("checkForUpdatesEnabled", JBool(value.checkForUpdates))];
    out := out + [("debugMode", JBool(value.debugMode))];
    out := out + [("displayConfiguration", JString(value.displayConfiguration))];
    out := out + [("keychainProvider", JString(value.keychainProvider))];
    out := out + [("language", JString(value.language))];
    out := out + [("licenseKey", JString(value.licenseKey))];
    out := out + [("mountService", JString(value.mountService))];
    out := out + [("numTrayNotifications", JNumber(value.numTrayNotifications as int))];
    out := out + [("port", JNumber(value.port as int))];
    out := out + [("showMinimizeButton", JBool(value.showMinimizeButton))];
    out := out + [("showTrayIcon", JBool(value.showTrayIcon))];
    out := out + [("startHidden", JBool(value.startHidden))];
    out := out + [("theme", JString(value.theme.Name()))];
    out := out + [("uiOrientation", JString(value.userInterfaceOrientation.Name()))];
    out := out + [("useKeychain", JBool(value.useKeychain))];
    out := out + [("windowHeight", JNumber(value.windowHeight as int))];
    out := out + [("windowWidth", JNumber(value.windowWidth as int))];
    out := out + [("windowXPosition", JNumber(value.windowXPosition as int))];
    out := out + [("windowYPosition", JNumber(value.windowYPosition as int))];
    doc := JObject(out);
  }

  /** Reads the entries of a `directories` array one by one, stopping at the first bad entry. */
  method ReadVaultSettingsArray(value: JsonValue) returns (r: Result<seq<VaultSettings>, ReadError>)
    ensures r == DecodeVaultArray(value)
  {
    if !value.JArray? {
      return Err(ExpectedArray("directories"));
    }
    var items := value.items;
    var result: seq<VaultSettings> := [];
    var i := 0;
    while i < |items|
      invariant 0 <= i <= |items|
      invariant DecodeVaultItems(items[..i]) == Ok(result)
    {
      assert items[..i + 1][..i] == items[..i];
      var entry := DecodeVault(items[i]);
      if entry.Err? {
        DecodeVaultItemsKeepsError(items, i + 1);
        return Err(entry.error);
      }
      result := result + [entry.value];
      i := i + 1;
    }
    assert items[..i] == items;
    return Ok(result);
  }

  /**
   * The `directories` case of the read loop: the array's entries are added
   * after those already held. The caller passes the member name it matched,
   * so that this case and the others are both stated as ReadField of that name.
   */
  method ReadDirectories(st: ReadState, name: string, value: JsonValue) returns (next: Result<ReadState, ReadError>)
    requires name == "directories"
    ensures next == ReadField(st, name, value)
  {
    var entries := ReadVaultSettingsArray(value);
    ReadFieldOnDirectories(st, value);
    if entries.Err? {
      next := Err(entries.error);
    } else {
      var s := st.settings;
      next := Ok(st.(settings := s.(directories := s.directories + entries.value)));
    }
  }

  /**
   * Reads a document into a fresh `defaults` record: one member at a time,
   * in document order, then the legacy migration.
   */
  method Read(doc: JsonValue, os: OS, defaults: Settings) returns (r: Result<Settings, ReadError>)
    ensures r == Decode(doc, os, defaults)
  {
    if !doc.JObject? {
      return Err(ExpectedObject);
    }
    var members := doc.members;
    var settings := defaults;
    var volumeImpl: Option<string> := None;
    var i := 0;
    while i < |members|
      invariant 0 <= i <= |members|
      invariant ReadFields(members[..i], ReadState(defaults, None)) == Ok(ReadState(settings, volumeImpl))
    {
      var name, value := members[i].0, members[i].1;
      assert members[..i + 1][..i] == members[..i];
      var next: Result<ReadState, ReadError>;
      if name == "directories" {
        next := ReadDirectories(ReadState(settings, volumeImpl), name, value);
      } else {
        next := ReadField(ReadState(settings, volumeImpl), name, value);
      }
      if next.Err? {
        ReadFieldsKeepsError(members, i + 1, ReadState(defaults, None));
        return Err(next.error);
      }
      settings, volumeImpl := next.value.settings, next.value.volumeImpl;
      i := i + 1;
    }
    assert members[..i] == members;
    if volumeImpl.Some? {
      settings := settings.(mountService := ConvertLegacyVolumeImplToMountService(volumeImpl.value, os));
    }
    return Ok(settings);
  }
}
