/**
 * What the settings codec guarantees, stated over its specification
 * functions: the enum fallback, the legacy conversion table, last-write-wins
 * for every scalar member, additive `directories`, the post-read migration,
 * tolerance of unknown members, and the write/read round trip.
 */
module SettingsJsonAdapterProperties {
  import opened Wrappers
  import opened Json
  import opened VaultSettingsCodec
  import opened SettingsRecord
  import opened SettingsJsonAdapter

  // ---------------------------------------------------------------------
  // Enum parsing
  // ---------------------------------------------------------------------

  /** ASCII lower-casing, the inverse direction of ToUpper. */
  function ToLower(s: string): string {
    seq(|s|, i requires 0 <= i < |s| => if 'A' <= s[i] <= 'Z' then (s[i] as int + 32) as char else s[i])
  }

  predicate NoLowerCase(s: string) {
    forall i :: 0 <= i < |s| ==> !('a' <= s[i] <= 'z')
  }

  /** Upper-casing the lower-cased spelling of a name without lower-case letters gives the name back. */
  lemma ToUpperToLower(s: string)
    requires NoLowerCase(s)
    ensures ToUpper(ToLower(s)) == s && ToUpper(s) == s
  {
    assert forall i :: 0 <= i < |s| ==> ToUpper(ToLower(s))[i] == s[i];
    assert forall i :: 0 <= i < |s| ==> ToUpper(s)[i] == s[i];
  }

  /** Each theme reads back from its name, in upper or in lower case. */
  lemma ParseUiThemeName(t: UiTheme)
    ensures ParseUiTheme(t.Name()) == t
    ensures ParseUiTheme(ToLower(t.Name())) == t
  {
    ToUpperToLower(t.Name());
  }

  /** Each orientation reads back from its name, in upper or in lower case. */
  lemma ParseUiOrientationName(o: NodeOrientation)
    ensures ParseUiOrientation(o.Name()) == o
    ensures ParseUiOrientation(ToLower(o.Name())) == o
  {
    ToUpperToLower(o.Name());
  }

  /** The parse is a function of the upper-cased input only, and a name that matches no theme never fails. */
  lemma ParseUiThemeCaseInsensitive(a: string, b: string)
    requires ToUpper(a) == ToUpper(b)
    ensures ParseUiTheme(a) == ParseUiTheme(b)
    ensures (forall u: UiTheme :: u.Name() != ToUpper(a)) <==> ParseUiTheme(a) == DefaultTheme && ToUpper(a) != DefaultTheme.Name()
  {
  }

  /** "dark" and "DARK" both give DARK; a string naming no theme gives the default. */
  lemma ParseUiThemeExamples()
    ensures ParseUiTheme("dark") == DARK && ParseUiTheme("DARK") == DARK
    ensures ParseUiTheme("not_a_theme") == DefaultTheme
    ensures ParseUiOrientation("right_to_left") == RIGHT_TO_LEFT
    ensures ParseUiOrientation("sideways") == DefaultUserInterfaceOrientation
  {
    ParseUiThemeName(DARK);
    assert ToUpper("dark") == "DARK";
    assert ToUpper("right_to_left") == "RIGHT_TO_LEFT";
    assert ToUpper("not_a_theme") == "NOT_A_THEME";
    assert ToUpper("sideways") == "SIDEWAYS";
  }

  // ---------------------------------------------------------------------
  // Legacy conversion
  // ---------------------------------------------------------------------

  /** The three mount technologies of the legacy setting. */
  datatype Technology = DokanyTechnology | FuseTechnology | WebDavTechnology

  function LegacyTechnology(volumeImpl: string): Technology {
    if volumeImpl == "Dokany" then DokanyTechnology
    else if volumeImpl == "FUSE" then FuseTechnology
    else WebDavTechnology
  }

  /** The host families the conversion tells apart: Windows, macOS and everything else. */
  datatype HostFamily = WindowsHost | MacHost | OtherHost

  function Host(os: OS): HostFamily {
    if os.Windows? then WindowsHost else if os.Mac? then MacHost else OtherHost
  }

  /** The conversion has exactly seven possible results. */
  lemma LegacyMountServicesCount()
    ensures |LegacyMountServices| == 7
  {
  }

  /**
   * Two conversions agree exactly when they concern the same technology and,
   * unless it is Dokany, the same host family: the identifier determines
   * the technology and, for FUSE and WebDAV, the host.
   */
  lemma LegacyConversionDistinguishes(a: string, osA: OS, b: string, osB: OS)
    ensures ConvertLegacyVolumeImplToMountService(a, osA) == ConvertLegacyVolumeImplToMountService(b, osB)
        <==> LegacyTechnology(a) == LegacyTechnology(b)
             && (LegacyTechnology(a) != DokanyTechnology ==> Host(osA) == Host(osB))
  {
  }

  /** Dokany ignores the OS; FUSE and any other string are resolved per host. */
  lemma LegacyConversionTable(volumeImpl: string, os: OS)
    ensures volumeImpl == "Dokany" ==>
      ConvertLegacyVolumeImplToMountService(volumeImpl, os) == DokanyMountProvider
    ensures volumeImpl == "FUSE" ==>
      ConvertLegacyVolumeImplToMountService(volumeImpl, os)
        == match Host(os)
           case WindowsHost => WinFspNetworkMountProvider
           case MacHost => MacFuseMountProvider
           case OtherHost => LinuxFuseMountProvider
    ensures volumeImpl != "Dokany" && volumeImpl != "FUSE" ==>
      ConvertLegacyVolumeImplToMountService(volumeImpl, os)
        == match Host(os)
           case WindowsHost => WindowsMounter
           case MacHost => MacAppleScriptMounter
           case OtherHost => LinuxGioMounter
  {
  }

  // ---------------------------------------------------------------------
  // The name switch
  // ---------------------------------------------------------------------

  // The switch is checked three case labels at a time, which keeps each
  // proof small; FieldNamedExactly puts the groups together.

  lemma FieldNamedGroup0(name: string, f: Field)
    requires f in {WrittenByVersion, Directories, AskedForUpdateCheck}
    ensures FieldNamed(name) == Some(f) <==> name == f.Name()
  {
  }

  lemma FieldNamedGroup1(name: string, f: Field)
    requires f in {AutoCloseVaults, CheckForUpdatesEnabled, DebugMode}
    ensures FieldNamed(name) == Some(f) <==> name == f.Name()
  {
  }

  lemma FieldNamedGroup2(name: string, f: Field)
    requires f in {DisplayConfiguration, KeychainProvider, Language}
    ensures FieldNamed(name) == Some(f) <==> name == f.Name()
  {
  }

  lemma FieldNamedGroup3(name: string, f: Field)
    requires f in {LicenseKey, MountService, NumTrayNotifications}
    ensures FieldNamed(name) == Some(f) <==> name == f.Name()
  {
  }

  lemma FieldNamedGroup4(name: string, f: Field)
    requires f in {Port, ShowMinimizeButton, ShowTrayIcon}
    ensures FieldNamed(name) == Some(f) <==> name == f.Name()
  {
  }

  lemma FieldNamedGroup5(name: string, f: Field)
    requires f in {StartHidden, Theme, UiOrientation}
    ensures FieldNamed(name) == Some(f) <==> name == f.Name()
  {
  }

  lemma FieldNamedGroup6(name: string, f: Field)
    requires f in {UseKeychain, WindowHeight, WindowWidth}
    ensures FieldNamed(name) == Some(f) <==> name == f.Name()
  {
  }

  lemma FieldNamedGroup7(name: string, f: Field)
    requires f in {WindowXPosition, WindowYPosition, PreferredVolumeImpl}
    ensures FieldNamed(name) == Some(f) <==> name == f.Name()
  {
  }

  /** The switch selects the case label `f` exactly when the member is spelled as that label. */
  lemma FieldNamedExactly(name: string, f: Field)
    ensures FieldNamed(name) == Some(f) <==> name == f.Name()
  {
    if f in {WrittenByVersion, Directories, AskedForUpdateCheck} {
      FieldNamedGroup0(name, f);
    } else if f in {AutoCloseVaults, CheckForUpdatesEnabled, DebugMode} {
      FieldNamedGroup1(name, f);
    } else if f in {DisplayConfiguration, KeychainProvider, Language} {
      FieldNamedGroup2(name, f);
    } else if f in {LicenseKey, MountService, NumTrayNotifications} {
      FieldNamedGroup3(name, f);
    } else if f in {Port, ShowMinimizeButton, ShowTrayIcon} {
      FieldNamedGroup4(name, f);
    } else if f in {StartHidden, Theme, UiOrientation} {
      FieldNamedGroup5(name, f);
    } else if f in {UseKeychain, WindowHeight, WindowWidth} {
      FieldNamedGroup6(name, f);
    } else {
      FieldNamedGroup7(name, f);
    }
  }

  /** Two case labels with the same spelling are the same label. */
  lemma NameInjective(f: Field, g: Field)
    ensures f.Name() == g.Name() ==> f == g
  {
    FieldNamedExactly(f.Name(), f);
    FieldNamedExactly(f.Name(), g);
  }

  /** A member is skipped by the switch exactly when no case label is spelled like its name. */
  lemma UnknownName(name: string)
    ensures FieldNamed(name).None? <==> forall f: Field :: f.Name() != name
  {
    if FieldNamed(name).Some? {
      FieldNamedExactly(name, FieldNamed(name).value);
    }
  }

  // ---------------------------------------------------------------------
  // Reading, member by member
  // ---------------------------------------------------------------------

  /**
   * Only `preferredVolumeImpl` touches the remembered legacy value and only
   * `directories` touches the vault entries.
   */
  lemma ReadKnownFieldFrame(st: ReadState, field: Field, value: JsonValue)
    requires ReadKnownField(st, field, value).Ok?
    ensures field != PreferredVolumeImpl ==> ReadKnownField(st, field, value).value.volumeImpl == st.volumeImpl
    ensures field != Directories ==>
      ReadKnownField(st, field, value).value.settings.directories == st.settings.directories
  {
    match field
    case WrittenByVersion =>
    case Directories =>
    case AskedForUpdateCheck =>
    case AutoCloseVaults =>
    case CheckForUpdatesEnabled =>
    case DebugMode =>
    case DisplayConfiguration =>
    case KeychainProvider =>
    case Language =>
    case LicenseKey =>
    case MountService =>
    case NumTrayNotifications =>
    case Port =>
    case ShowMinimizeButton =>
    case ShowTrayIcon =>
    case StartHidden =>
    case Theme =>
    case UiOrientation =>
    case UseKeychain =>
    case WindowHeight =>
    case WindowWidth =>
    case WindowXPosition =>
    case WindowYPosition =>
    case PreferredVolumeImpl =>
  }

  /**
   * A `mountService` value that is not a string is left unread, so the
   * reader fails where it expects the next member name.
   */
  lemma ReadKnownFieldMountService(st: ReadState, value: JsonValue)
    ensures ReadKnownField(st, MountService, value).Ok? <==> value.JString?
    ensures !value.JString? ==> ReadKnownField(st, MountService, value) == Err(ExpectedName("mountService"))
    ensures value.JString? ==> ReadKnownField(st, MountService, value).value.settings.mountService == value.s
  {
  }

  /**
   * The JSON a writer emits for the scalar setting `f` of `s` (None for
   * the version stamp, the vault entries and the legacy member).
   */
  function FieldImage(s: Settings, f: Field): Option<JsonValue> {
    match f
    case AskedForUpdateCheck => Some(JBool(s.askedForUpdateCheck))
    case AutoCloseVaults => Some(JBool(s.autoCloseVaults))
    case CheckForUpdatesEnabled => Some(JBool(s.checkForUpdates))
    case DebugMode => Some(JBool(s.debugMode))
    case DisplayConfiguration => Some(JString(s.displayConfiguration))
    case KeychainProvider => Some(JString(s.keychainProvider))
    case Language => Some(JString(s.language))
    case LicenseKey => Some(JString(s.licenseKey))
    case MountService => Some(JString(s.mountService))
    case NumTrayNotifications => Some(JNumber(s.numTrayNotifications as int))
    case Port => Some(JNumber(s.port as int))
    case ShowMinimizeButton => Some(JBool(s.showMinimizeButton))
    case ShowTrayIcon => Some(JBool(s.showTrayIcon))
    case StartHidden => Some(JBool(s.startHidden))
    case Theme => Some(JString(s.theme.Name()))
    case UiOrientation => Some(JString(s.userInterfaceOrientation.Name()))
    case UseKeychain => Some(JBool(s.useKeychain))
    case WindowHeight => Some(JNumber(s.windowHeight as int))
    case WindowWidth => Some(JNumber(s.windowWidth as int))
    case WindowXPosition => Some(JNumber(s.windowXPosition as int))
    case WindowYPosition => Some(JNumber(s.windowYPosition as int))
    case WrittenByVersion | Directories | PreferredVolumeImpl => None
  }

  /** What a read value becomes once stored: enum names are parsed (with the fallback), the rest is kept. */
  function Normalized(f: Field, v: JsonValue): JsonValue {
    match f
    case Theme => if v.JString? then JString(ParseUiTheme(v.s).Name()) else v
    case UiOrientation => if v.JString? then JString(ParseUiOrientation(v.s).Name()) else v
    case _ => v
  }

  /** A dispatched member sets the scalar it names and leaves every other scalar as it was. */
  lemma ReadKnownFieldImage(st: ReadState, g: Field, value: JsonValue, f: Field)
    requires ReadKnownField(st, g, value).Ok?
    requires FieldImage(st.settings, f).Some?
    ensures FieldImage(ReadKnownField(st, g, value).value.settings, f)
         == if g == f then Some(Normalized(f, value)) else FieldImage(st.settings, f)
  {
    if g in {AskedForUpdateCheck, AutoCloseVaults, CheckForUpdatesEnabled, DebugMode} {
      ReadKnownFieldImageFlag(st, g, value, f);
    } else if g in {ShowMinimizeButton, ShowTrayIcon, StartHidden, UseKeychain} {
      ReadKnownFieldImageFlag2(st, g, value, f);
    } else if g in {DisplayConfiguration, KeychainProvider, Language, LicenseKey, MountService} {
      ReadKnownFieldImageText(st, g, value, f);
    } else if g in {Theme, UiOrientation} {
      ReadKnownFieldImageEnum(st, g, value, f);
    } else if g in {NumTrayNotifications, Port, WindowHeight} {
      ReadKnownFieldImageNumber(st, g, value, f);
    } else if g in {WindowWidth, WindowXPosition, WindowYPosition} {
      ReadKnownFieldImageNumber2(st, g, value, f);
    } else {
      ReadKnownFieldImageOther(st, g, value, f);
    }
  }

  // ReadKnownFieldImage, proved for one group of case labels at a time.

  lemma ReadKnownFieldImageFlag(st: ReadState, g: Field, value: JsonValue, f: Field)
    requires g in {AskedForUpdateCheck, AutoCloseVaults, CheckForUpdatesEnabled, DebugMode}
    requires ReadKnownField(st, g, value).Ok?
    requires FieldImage(st.settings, f).Some?
    ensures FieldImage(ReadKnownField(st, g, value).value.settings, f)
         == if g == f then Some(Normalized(f, value)) else FieldImage(st.settings, f)
  {
  }

  lemma ReadKnownFieldImageFlag2(st: ReadState, g: Field, value: JsonValue, f: Field)
    requires g in {ShowMinimizeButton, ShowTrayIcon, StartHidden, UseKeychain}
    requires ReadKnownField(st, g, value).Ok?
    requires FieldImage(st.settings, f).Some?
    ensures FieldImage(ReadKnownField(st, g, value).value.settings, f)
         == if g == f then Some(Normalized(f, value)) else FieldImage(st.settings, f)
  {
  }

  lemma ReadKnownFieldImageText(st: ReadState, g: Field, value: JsonValue, f: Field)
    requires g in {DisplayConfiguration, KeychainProvider, Language, LicenseKey, MountService}
    requires ReadKnownField(st, g, value).Ok?
    requires FieldImage(st.settings, f).Some?
    ensures FieldImage(ReadKnownField(st, g, value).value.settings, f)
         == if g == f then Some(Normalized(f, value)) else FieldImage(st.settings, f)
  {
  }

  lemma ReadKnownFieldImageEnum(st: ReadState, g: Field, value: JsonValue, f: Field)
    requires g in {Theme, UiOrientation}
    requires ReadKnownField(st, g, value).Ok?
    requires FieldImage(st.settings, f).Some?
    ensures FieldImage(ReadKnownField(st, g, value).value.settings, f)
         == if g == f then Some(Normalized(f, value)) else FieldImage(st.settings, f)
  {
  }

  lemma ReadKnownFieldImageNumber(st: ReadState, g: Field, value: JsonValue, f: Field)
    requires g in {NumTrayNotifications, Port, WindowHeight}
    requires ReadKnownField(st, g, value).Ok?
    requires FieldImage(st.settings, f).Some?
    ensures FieldImage(ReadKnownField(st, g, value).value.settings, f)
         == if g == f then Some(Normalized(f, value)) else FieldImage(st.settings, f)
  {
  }

  lemma ReadKnownFieldImageNumber2(st: ReadState, g: Field, value: JsonValue, f: Field)
    requires g in {WindowWidth, WindowXPosition, WindowYPosition}
    requires ReadKnownField(st, g, value).Ok?
    requires FieldImage(st.settings, f).Some?
    ensures FieldImage(ReadKnownField(st, g, value).value.settings, f)
         == if g == f then Some(Normalized(f, value)) else FieldImage(st.settings, f)
  {
  }

  lemma ReadKnownFieldImageOther(st: ReadState, g: Field, value: JsonValue, f: Field)
    requires g in {WrittenByVersion, Directories, PreferredVolumeImpl}
    requires ReadKnownField(st, g, value).Ok?
    requires FieldImage(st.settings, f).Some?
    ensures FieldImage(ReadKnownField(st, g, value).value.settings, f)
         == if g == f then Some(Normalized(f, value)) else FieldImage(st.settings, f)
  {
  }

  /** One member sets the scalar it names and leaves every other scalar as it was. */
  lemma ReadFieldImage(st: ReadState, name: string, value: JsonValue, f: Field)
    requires ReadField(st, name, value).Ok?
    requires FieldImage(st.settings, f).Some?
    ensures FieldImage(ReadField(st, name, value).value.settings, f)
         == if name == f.Name() then Some(Normalized(f, value)) else FieldImage(st.settings, f)
  {
    FieldNamedExactly(name, f);
    match FieldNamed(name)
    case None =>
    case Some(g) =>
      FieldNamedExactly(name, g);
      ReadKnownFieldImage(st, g, value, f);
  }

  /**
   * Last write wins: after a successful read, each scalar setting holds the
   * last value given for it in the document, or its prior value when the
   * document does not mention it.
   */
  lemma {:induction false} LastWriteWins(ms: seq<Member>, st: ReadState, f: Field)
    requires ReadFields(ms, st).Ok?
    requires FieldImage(st.settings, f).Some?
    ensures FieldImage(ReadFields(ms, st).value.settings, f) ==
      match LastValue(ms, f.Name())
      case None => FieldImage(st.settings, f)
      case Some(v) => Some(Normalized(f, v))
  {
    if |ms| > 0 {
      var prefix := ms[..|ms| - 1];
      LastWriteWins(prefix, st, f);
      var prior := ReadFields(prefix, st).value;
      assert ReadFields(ms, st) == ReadField(prior, ms[|ms| - 1].0, ms[|ms| - 1].1);
      ReadFieldImage(prior, ms[|ms| - 1].0, ms[|ms| - 1].1, f);
    }
  }

  /** One member adds vault entries only if it is `directories`, and then after the existing ones. */
  lemma ReadFieldDirectories(st: ReadState, name: string, value: JsonValue)
    requires ReadField(st, name, value).Ok?
    ensures ReadField(st, name, value).value.settings.directories ==
      st.settings.directories
        + if name == Directories.Name() && DecodeVaultArray(value).Ok? then DecodeVaultArray(value).value else []
    ensures name == Directories.Name() ==> DecodeVaultArray(value).Ok?
  {
    FieldNamedExactly(name, Directories);
    match FieldNamed(name)
    case None =>
    case Some(g) =>
      ReadKnownFieldFrame(st, g, value);
  }

  /** One member changes the remembered legacy value only if it is `preferredVolumeImpl`, and then to its string. */
  lemma ReadFieldVolumeImpl(st: ReadState, name: string, value: JsonValue)
    requires ReadField(st, name, value).Ok?
    ensures var volumeImpl := ReadField(st, name, value).value.volumeImpl;
      if name == PreferredVolumeImpl.Name() then value.JString? && volumeImpl == Some(value.s)
      else volumeImpl == st.volumeImpl
  {
    FieldNamedExactly(name, PreferredVolumeImpl);
    match FieldNamed(name)
    case None =>
    case Some(g) =>
      ReadKnownFieldFrame(st, g, value);
  }

  /** The vault entries a run of members contributes, `directories` member by member, in document order. */
  function DirectoriesIn(ms: seq<Member>): seq<VaultSettings> {
    if |ms| == 0 then []
    else
      var last := ms[|ms| - 1];
      DirectoriesIn(ms[..|ms| - 1])
        + if last.0 == Directories.Name() && DecodeVaultArray(last.1).Ok? then DecodeVaultArray(last.1).value else []
  }

  /**
   * One `directories` member keeps the prior entries and appends one entry
   * per array element, in array order: M prior entries and N elements give M+N.
   */
  lemma DirectoriesAppend(st: ReadState, value: JsonValue)
    requires ReadField(st, "directories", value).Ok?
    ensures value.JArray?
    ensures var dirs := ReadField(st, "directories", value).value.settings.directories;
      && |dirs| == |st.settings.directories| + |value.items|
      && dirs[..|st.settings.directories|] == st.settings.directories
      && forall k :: 0 <= k < |value.items| ==>
           DecodeVault(value.items[k]) == Ok(dirs[|st.settings.directories| + k])
  {
    ReadFieldDirectories(st, "directories", value);
  }

  /** Repeated `directories` members accumulate: nothing read earlier is replaced. */
  lemma {:induction false} DirectoriesAccumulate(ms: seq<Member>, st: ReadState)
    requires ReadFields(ms, st).Ok?
    ensures ReadFields(ms, st).value.settings.directories == st.settings.directories + DirectoriesIn(ms)
  {
    if |ms| > 0 {
      var prefix := ms[..|ms| - 1];
      DirectoriesAccumulate(prefix, st);
      var prior := ReadFields(prefix, st).value;
      assert ReadFields(ms, st) == ReadField(prior, ms[|ms| - 1].0, ms[|ms| - 1].1);
      ReadFieldDirectories(prior, ms[|ms| - 1].0, ms[|ms| - 1].1);
    }
  }

  /** After a successful read the remembered legacy value is the last `preferredVolumeImpl` string. */
  lemma {:induction false} VolumeImplIsLastLegacyValue(ms: seq<Member>, st: ReadState)
    requires ReadFields(ms, st).Ok?
    ensures var volumeImpl := ReadFields(ms, st).value.volumeImpl;
      match LastValue(ms, PreferredVolumeImpl.Name())
      case None => volumeImpl == st.volumeImpl
      case Some(v) => v.JString? && volumeImpl == Some(v.s)
  {
    if |ms| > 0 {
      var prefix := ms[..|ms| - 1];
      VolumeImplIsLastLegacyValue(prefix, st);
      var prior := ReadFields(prefix, st).value;
      assert ReadFields(ms, st) == ReadField(prior, ms[|ms| - 1].0, ms[|ms| - 1].1);
      ReadFieldVolumeImpl(prior, ms[|ms| - 1].0, ms[|ms| - 1].1);
    }
  }

  // ---------------------------------------------------------------------
  // Reading a whole document
  // ---------------------------------------------------------------------

  /** A run of members read after another continues from the state the first run left. */
  lemma {:induction false} ReadFieldsAppend(a: seq<Member>, b: seq<Member>, st: ReadState)
    ensures ReadFields(a + b, st) ==
      match ReadFields(a, st)
      case Err(e) => Err(e)
      case Ok(mid) => ReadFields(b, mid)
  {
    if |b| == 0 {
      assert a + b == a;
    } else {
      ReadFieldsAppend(a, b[..|b| - 1], st);
      assert (a + b)[..|a + b| - 1] == a + b[..|b| - 1];
    }
  }

  /** The version stamp and any member no case label names are read past without effect. */
  lemma SkippedMember(st: ReadState, name: string, value: JsonValue)
    requires (forall f: Field :: f.Name() != name) || name == WrittenByVersion.Name()
    ensures ReadField(st, name, value) == Ok(st)
  {
    UnknownName(name);
    FieldNamedExactly(name, WrittenByVersion);
  }

  /**
   * An unknown member, or the version stamp, may be inserted anywhere in a
   * document without changing what it decodes to.
   */
  lemma UnknownMemberIgnored(before: seq<Member>, after: seq<Member>, name: string, value: JsonValue,
                             os: OS, defaults: Settings)
    requires (forall f: Field :: f.Name() != name) || name == WrittenByVersion.Name()
    ensures Decode(JObject(before + [(name, value)] + after), os, defaults)
         == Decode(JObject(before + after), os, defaults)
  {
    var st := ReadState(defaults, None);
    ReadFieldsAppend(before + [(name, value)], after, st);
    ReadFieldsAppend(before, [(name, value)], st);
    ReadFieldsAppend(before, after, st);
    assert [(name, value)][..0] == [];
    if ReadFields(before, st).Ok? {
      SkippedMember(ReadFields(before, st).value, name, value);
    }
  }

  /**
   * The mount service after a read: the conversion of the last legacy
   * value if there is one, whatever the order of members and whatever
   * `mountService` says; otherwise the last `mountService`, otherwise the default.
   */
  lemma MountServiceAfterDecode(ms: seq<Member>, os: OS, defaults: Settings)
    requires Decode(JObject(ms), os, defaults).Ok?
    ensures var s := Decode(JObject(ms), os, defaults).value;
      match LastValue(ms, PreferredVolumeImpl.Name())
      case Some(v) =>
        v.JString? && s.mountService == ConvertLegacyVolumeImplToMountService(v.s, os)
      case None =>
        match LastValue(ms, MountService.Name())
        case Some(m) => m.JString? && s.mountService == m.s
        case None => s.mountService == defaults.mountService
  {
    var st := ReadState(defaults, None);
    VolumeImplIsLastLegacyValue(ms, st);
    LastWriteWins(ms, st, MountService);
  }

  /** Without a legacy member the migration changes nothing, and the result does not depend on the OS. */
  lemma NoLegacyMemberNoMigration(ms: seq<Member>, osA: OS, osB: OS, defaults: Settings)
    requires forall i :: 0 <= i < |ms| ==> ms[i].0 != PreferredVolumeImpl.Name()
    ensures Decode(JObject(ms), osA, defaults) == Decode(JObject(ms), osB, defaults)
    ensures Decode(JObject(ms), osA, defaults).Ok? ==>
      Decode(JObject(ms), osA, defaults).value == ReadFields(ms, ReadState(defaults, None)).value.settings
  {
    if ReadFields(ms, ReadState(defaults, None)).Ok? {
      VolumeImplIsLastLegacyValue(ms, ReadState(defaults, None));
    }
  }

  /**
   * A `mountService` member whose value is not a string is never stored:
   * reading stops there, with the error of a value left where a name was due.
   */
  lemma NonStringMountServiceFails(ms: seq<Member>, i: nat, os: OS, defaults: Settings)
    requires i < |ms| && ms[i].0 == MountService.Name() && !ms[i].1.JString?
    requires forall j :: 0 <= j < i ==> Readable(ms[j].0, ms[j].1)
    ensures Decode(JObject(ms), os, defaults) == Err(ExpectedName("mountService"))
  {
    var st := ReadState(defaults, None);
    assert ms[..i + 1][..i] == ms[..i];
    var prior := ReadFields(ms[..i], st).value;
    assert ReadFields(ms[..i + 1], st) == ReadField(prior, ms[i].0, ms[i].1);
    FieldNamedExactly(ms[i].0, MountService);
    ReadKnownFieldMountService(prior, ms[i].1);
    ReadFieldsKeepsError(ms, i + 1, st);
  }

  /**
   * A `theme` or `uiOrientation` member whose value is not a string never
   * reaches the fallback parse: reading stops there, with the typed read's error.
   */
  lemma NonStringEnumFails(ms: seq<Member>, i: nat, os: OS, defaults: Settings)
    requires i < |ms| && (ms[i].0 == Theme.Name() || ms[i].0 == UiOrientation.Name()) && !ms[i].1.JString?
    requires forall j :: 0 <= j < i ==> Readable(ms[j].0, ms[j].1)
    ensures Decode(JObject(ms), os, defaults) == Err(ExpectedString(ms[i].0))
  {
    var st := ReadState(defaults, None);
    assert ms[..i + 1][..i] == ms[..i];
    var prior := ReadFields(ms[..i], st).value;
    assert ReadFields(ms[..i + 1], st) == ReadField(prior, ms[i].0, ms[i].1);
    FieldNamedExactly(ms[i].0, Theme);
    FieldNamedExactly(ms[i].0, UiOrientation);
    ReadFieldsKeepsError(ms, i + 1, st);
  }

  /**
   * A typed member given a value of another type aborts the read, so a
   * malformed boolean is as fatal as a malformed enum.
   */
  lemma MalformedFlagFails(os: OS, defaults: Settings)
    ensures Decode(JObject([("debugMode", JString("yes"))]), os, defaults) == Err(ExpectedBoolean("debugMode"))
  {
    FieldNamedExactly("debugMode", DebugMode);
    assert [("debugMode", JString("yes"))][..0] == [];
  }

  // ---------------------------------------------------------------------
  // Writing, and reading back what was written
  // ---------------------------------------------------------------------

  /** The JSON value the writer emits for the member `f`; enums are written by name. */
  function WrittenValue(value: Settings, f: Field, appVersion: string, buildNumber: Option<string>): JsonValue
    requires f != PreferredVolumeImpl
  {
    match f
    case WrittenByVersion => JString(VersionStamp(appVersion, buildNumber))
    case Directories => JArray(EncodeVaultArray(value.directories))
    // Excluded by the requires; listed so that `case _` does not range over it.
    case PreferredVolumeImpl => JNull
    case _ => FieldImage(value, f).value
  }

  /** The written document described field by field: the member for WrittenFields[i] is i-th. */
  function FieldMembers(value: Settings, appVersion: string, buildNumber: Option<string>): seq<Member> {
    seq(|WrittenFields|, i requires 0 <= i < |WrittenFields| =>
      (WrittenFields[i].Name(), WrittenValue(value, WrittenFields[i], appVersion, buildNumber)))
  }

  // The written object is compared with FieldMembers three members at a
  // time; EncodeByField puts the parts together.

  lemma EncodeByFieldPart0(value: Settings, appVersion: string, buildNumber: Option<string>)
    ensures AgreeOn(Encode(value, appVersion, buildNumber).members, FieldMembers(value, appVersion, buildNumber), 0, 3)
  {
  }

  lemma EncodeByFieldPart1(value: Settings, appVersion: string, buildNumber: Option<string>)
    ensures AgreeOn(Encode(value, appVersion, buildNumber).members, FieldMembers(value, appVersion, buildNumber), 3, 6)
  {
  }

  lemma EncodeByFieldPart2(value: Settings, appVersion: string, buildNumber: Option<string>)
    ensures AgreeOn(Encode(value, appVersion, buildNumber).members, FieldMembers(value, appVersion, buildNumber), 6, 9)
  {
  }

  lemma EncodeByFieldPart3(value: Settings, appVersion: string, buildNumber: Option<string>)
    ensures AgreeOn(Encode(value, appVersion, buildNumber).members, FieldMembers(value, appVersion, buildNumber), 9, 12)
  {
  }

  lemma EncodeByFieldPart4(value: Settings, appVersion: string, buildNumber: Option<string>)
    ensures AgreeOn(Encode(value, appVersion, buildNumber).members, FieldMembers(value, appVersion, buildNumber), 12, 15)
  {
  }

  lemma EncodeByFieldPart5(value: Settings, appVersion: string, buildNumber: Option<string>)
    ensures AgreeOn(Encode(value, appVersion, buildNumber).members, FieldMembers(value, appVersion, buildNumber), 15, 18)
  {
  }

  lemma EncodeByFieldPart6(value: Settings, appVersion: string, buildNumber: Option<string>)
    ensures AgreeOn(Encode(value, appVersion, buildNumber).members, FieldMembers(value, appVersion, buildNumber), 18, 21)
  {
  }

  lemma EncodeByFieldPart7(value: Settings, appVersion: string, buildNumber: Option<string>)
    ensures AgreeOn(Encode(value, appVersion, buildNumber).members, FieldMembers(value, appVersion, buildNumber), 21, 23)
  {
  }

  /**
   * The writer names every member exactly as the reader's case label for it
   * and writes each setting in the form that label reads.
   */
  lemma EncodeByField(value: Settings, appVersion: string, buildNumber: Option<string>)
    ensures Encode(value, appVersion, buildNumber).members == FieldMembers(value, appVersion, buildNumber)
  {
    EncodeByFieldPart0(value, appVersion, buildNumber);
    EncodeByFieldPart1(value, appVersion, buildNumber);
    EncodeByFieldPart2(value, appVersion, buildNumber);
    EncodeByFieldPart3(value, appVersion, buildNumber);
    EncodeByFieldPart4(value, appVersion, buildNumber);
    EncodeByFieldPart5(value, appVersion, buildNumber);
    EncodeByFieldPart6(value, appVersion, buildNumber);
    EncodeByFieldPart7(value, appVersion, buildNumber);
    SameByParts(Encode(value, appVersion, buildNumber).members, FieldMembers(value, appVersion, buildNumber));
  }

  /** Whether two member lists agree at every index from `lo` up to `hi`. */
  predicate AgreeOn(a: seq<Member>, b: seq<Member>, lo: nat, hi: nat) {
    hi <= |a| && hi <= |b| && forall k :: lo <= k < hi ==> a[k] == b[k]
  }

  /** Two lists of 23 members that agree part by part are equal. */
  lemma SameByParts(a: seq<Member>, b: seq<Member>)
    requires |a| == |b| == 23
    requires AgreeOn(a, b, 0, 3) && AgreeOn(a, b, 3, 6) && AgreeOn(a, b, 6, 9) && AgreeOn(a, b, 9, 12)
    requires AgreeOn(a, b, 12, 15) && AgreeOn(a, b, 15, 18) && AgreeOn(a, b, 18, 21) && AgreeOn(a, b, 21, 23)
    ensures a == b
  {
    forall k | 0 <= k < 23
      ensures a[k] == b[k]
    {
    }
  }

  /** Each member is written once, and `preferredVolumeImpl` never. */
  lemma WrittenFieldsDistinct()
    ensures forall i, j :: 0 <= i < j < |WrittenFields| ==> WrittenFields[i] != WrittenFields[j]
    ensures PreferredVolumeImpl !in WrittenFields
  {
  }

  /** Every case label but the legacy one is written. */
  lemma WrittenFieldsCover(f: Field)
    requires f != PreferredVolumeImpl
    ensures f in WrittenFields
  {
  }

  /** In an object without repeated names, the value read for a member's name is that member's value. */
  lemma {:induction false} LastValueAt(ms: seq<Member>, k: nat)
    requires k < |ms|
    requires forall i, j :: 0 <= i < j < |ms| ==> ms[i].0 != ms[j].0
    ensures LastValue(ms, ms[k].0) == Some(ms[k].1)
  {
    if k < |ms| - 1 {
      LastValueAt(ms[..|ms| - 1], k);
    }
  }

  /** In an object without repeated names, the only `directories` member gives all the vault entries. */
  lemma {:induction false} DirectoriesInSingle(ms: seq<Member>, k: nat)
    requires k < |ms| && ms[k].0 == Directories.Name()
    requires forall i, j :: 0 <= i < j < |ms| ==> ms[i].0 != ms[j].0
    ensures DirectoriesIn(ms) == if DecodeVaultArray(ms[k].1).Ok? then DecodeVaultArray(ms[k].1).value else []
  {
    if k < |ms| - 1 {
      DirectoriesInSingle(ms[..|ms| - 1], k);
    } else {
      DirectoriesNone(ms[..|ms| - 1]);
    }
  }

  /** Members none of which is `directories` contribute no vault entries. */
  lemma {:induction false} DirectoriesNone(ms: seq<Member>)
    requires forall i :: 0 <= i < |ms| ==> ms[i].0 != Directories.Name()
    ensures DirectoriesIn(ms) == []
  {
    if |ms| > 0 {
      DirectoriesNone(ms[..|ms| - 1]);
    }
  }

  /** The vault entries read back from the array written for them are those entries. */
  lemma EncodeVaultArrayRoundTrip(vs: seq<VaultSettings>)
    ensures DecodeVaultArray(JArray(EncodeVaultArray(vs))) == Ok(vs)
  {
    var items := EncodeVaultArray(vs);
    forall k | 0 <= k < |vs|
      ensures DecodeVault(items[k]) == Ok(vs[k])
    {
      VaultRoundTrip(vs[k]);
    }
    var r := DecodeVaultItems(items);
    assert r.Ok?;
    assert r.value == vs;
  }

  /** Every written value has the shape its member is read as. */
  lemma WrittenValueAccepted(value: Settings, f: Field, appVersion: string, buildNumber: Option<string>)
    requires f != PreferredVolumeImpl
    ensures Accepts(f, WrittenValue(value, f, appVersion, buildNumber))
  {
    if f == Directories {
      var items := EncodeVaultArray(value.directories);
      forall k | 0 <= k < |items|
        ensures items[k].JObject?
      {
        assert items[k] == EncodeVault(value.directories[k]);
      }
    }
  }

  /** A written scalar reads back as itself: in particular an enum's name parses to that enum. */
  lemma NormalizedImage(s: Settings, f: Field)
    requires FieldImage(s, f).Some?
    ensures Normalized(f, FieldImage(s, f).value) == FieldImage(s, f).value
  {
    if f == Theme {
      ParseUiThemeName(s.theme);
    } else if f == UiOrientation {
      ParseUiOrientationName(s.userInterfaceOrientation);
    }
  }

  /** Records with the same scalar images have the same flags. */
  lemma SameFlags(a: Settings, b: Settings)
    requires forall f: Field :: FieldImage(a, f) == FieldImage(b, f)
    ensures a.askedForUpdateCheck == b.askedForUpdateCheck
      && a.autoCloseVaults == b.autoCloseVaults
      && a.checkForUpdates == b.checkForUpdates
      && a.debugMode == b.debugMode
      && a.showMinimizeButton == b.showMinimizeButton
      && a.showTrayIcon == b.showTrayIcon
      && a.startHidden == b.startHidden
      && a.useKeychain == b.useKeychain
  {
    assert FieldImage(a, AskedForUpdateCheck) == FieldImage(b, AskedForUpdateCheck);
    assert FieldImage(a, AutoCloseVaults) == FieldImage(b, AutoCloseVaults);
    assert FieldImage(a, CheckForUpdatesEnabled) == FieldImage(b, CheckForUpdatesEnabled);
    assert FieldImage(a, DebugMode) == FieldImage(b, DebugMode);
    assert FieldImage(a, ShowMinimizeButton) == FieldImage(b, ShowMinimizeButton);
    assert FieldImage(a, ShowTrayIcon) == FieldImage(b, ShowTrayIcon);
    assert FieldImage(a, StartHidden) == FieldImage(b, StartHidden);
    assert FieldImage(a, UseKeychain) == FieldImage(b, UseKeychain);
  }

  /** Records with the same scalar images have the same strings and enums (an enum is known by its name). */
  lemma SameTexts(a: Settings, b: Settings)
    requires forall f: Field :: FieldImage(a, f) == FieldImage(b, f)
    ensures a.displayConfiguration == b.displayConfiguration
      && a.keychainProvider == b.keychainProvider
      && a.language == b.language
      && a.licenseKey == b.licenseKey
      && a.mountService == b.mountService
      && a.theme == b.theme
      && a.userInterfaceOrientation == b.userInterfaceOrientation
  {
    assert FieldImage(a, DisplayConfiguration) == FieldImage(b, DisplayConfiguration);
    assert FieldImage(a, KeychainProvider) == FieldImage(b, KeychainProvider);
    assert FieldImage(a, Language) == FieldImage(b, Language);
    assert FieldImage(a, LicenseKey) == FieldImage(b, LicenseKey);
    assert FieldImage(a, MountService) == FieldImage(b, MountService);
    assert FieldImage(a, Theme) == FieldImage(b, Theme);
    assert FieldImage(a, UiOrientation) == FieldImage(b, UiOrientation);
  }

  /** Records with the same scalar images have the same numbers. */
  lemma SameNumbers(a: Settings, b: Settings)
    requires forall f: Field :: FieldImage(a, f) == FieldImage(b, f)
    ensures a.numTrayNotifications == b.numTrayNotifications
      && a.port == b.port
      && a.windowHeight == b.windowHeight
      && a.windowWidth == b.windowWidth
      && a.windowXPosition == b.windowXPosition
      && a.windowYPosition == b.windowYPosition
  {
    assert FieldImage(a, NumTrayNotifications) == FieldImage(b, NumTrayNotifications);
    assert FieldImage(a, Port) == FieldImage(b, Port);
    assert FieldImage(a, WindowHeight) == FieldImage(b, WindowHeight);
    assert FieldImage(a, WindowWidth) == FieldImage(b, WindowWidth);
    assert FieldImage(a, WindowXPosition) == FieldImage(b, WindowXPosition);
    assert FieldImage(a, WindowYPosition) == FieldImage(b, WindowYPosition);
  }

  /** Two records that agree on every scalar differ at most in their vault entries. */
  lemma SettingsFromImages(a: Settings, b: Settings)
    requires forall f: Field :: FieldImage(a, f) == FieldImage(b, f)
    ensures a == b.(directories := a.directories)
  {
    SameFlags(a, b);
    SameTexts(a, b);
    SameNumbers(a, b);
  }

  /** The members of a written document have distinct names, none of them `preferredVolumeImpl`. */
  lemma FieldMembersNames(value: Settings, appVersion: string, buildNumber: Option<string>)
    ensures var ms := FieldMembers(value, appVersion, buildNumber);
      && (forall i, j :: 0 <= i < j < |ms| ==> ms[i].0 != ms[j].0)
      && (forall i :: 0 <= i < |ms| ==> ms[i].0 != PreferredVolumeImpl.Name())
  {
    var ms := FieldMembers(value, appVersion, buildNumber);
    WrittenFieldsDistinct();
    forall i, j | 0 <= i < j < |ms|
      ensures ms[i].0 != ms[j].0
    {
      NameInjective(WrittenFields[i], WrittenFields[j]);
    }
    forall i | 0 <= i < |ms|
      ensures ms[i].0 != PreferredVolumeImpl.Name()
    {
      NameInjective(WrittenFields[i], PreferredVolumeImpl);
    }
  }

  /** Every member of a written document reads without error. */
  lemma FieldMembersReadable(value: Settings, appVersion: string, buildNumber: Option<string>, st: ReadState)
    ensures ReadFields(FieldMembers(value, appVersion, buildNumber), st).Ok?
  {
    var ms := FieldMembers(value, appVersion, buildNumber);
    forall i | 0 <= i < |ms|
      ensures Readable(ms[i].0, ms[i].1)
    {
      var f := WrittenFields[i];
      assert ms[i] == (f.Name(), WrittenValue(value, f, appVersion, buildNumber));
      FieldNamedExactly(ms[i].0, f);
      WrittenValueAccepted(value, f, appVersion, buildNumber);
    }
  }

  /** Whether a setting is a scalar depends on the case label only. */
  lemma ImageShape(a: Settings, b: Settings, f: Field)
    ensures FieldImage(a, f).Some? <==> FieldImage(b, f).Some?
  {
  }

  /** A scalar is written as its image. */
  lemma WrittenValueScalar(value: Settings, f: Field, appVersion: string, buildNumber: Option<string>)
    requires FieldImage(value, f).Some?
    ensures WrittenValue(value, f, appVersion, buildNumber) == FieldImage(value, f).value
  {
  }

  /** Each scalar of a written document reads back as the value it was written from. */
  lemma FieldMembersScalar(value: Settings, appVersion: string, buildNumber: Option<string>, st: ReadState, f: Field)
    requires FieldImage(value, f).Some?
    requires ReadFields(FieldMembers(value, appVersion, buildNumber), st).Ok?
    ensures FieldImage(ReadFields(FieldMembers(value, appVersion, buildNumber), st).value.settings, f)
         == FieldImage(value, f)
  {
    var ms := FieldMembers(value, appVersion, buildNumber);
    ImageShape(st.settings, value, f);
    LastWriteWins(ms, st, f);
    FieldMembersLastImage(value, appVersion, buildNumber, f);
    NormalizedImage(value, f);
    assert FieldImage(ReadFields(ms, st).value.settings, f) == Some(Normalized(f, FieldImage(value, f).value));
  }

  /** In a written document, the value read for a scalar's name is the scalar's image. */
  lemma FieldMembersLastImage(value: Settings, appVersion: string, buildNumber: Option<string>, f: Field)
    requires FieldImage(value, f).Some?
    ensures LastValue(FieldMembers(value, appVersion, buildNumber), f.Name()) == Some(FieldImage(value, f).value)
  {
    WrittenFieldsCover(f);
    var k :| 0 <= k < |WrittenFields| && WrittenFields[k] == f;
    FieldMembersLastValue(value, appVersion, buildNumber, k);
    WrittenValueScalar(value, f, appVersion, buildNumber);
  }

  /** In a written document, the value read for a written field is the one written for it. */
  lemma FieldMembersLastValue(value: Settings, appVersion: string, buildNumber: Option<string>, k: nat)
    requires k < |WrittenFields|
    ensures WrittenFields[k] != PreferredVolumeImpl
    ensures LastValue(FieldMembers(value, appVersion, buildNumber), WrittenFields[k].Name())
         == Some(WrittenValue(value, WrittenFields[k], appVersion, buildNumber))
  {
    WrittenFieldsDistinct();
    FieldMembersNames(value, appVersion, buildNumber);
    LastValueAt(FieldMembers(value, appVersion, buildNumber), k);
  }

  /** The vault entries of a written document are appended, in order, to those already held. */
  lemma FieldMembersDirectories(value: Settings, appVersion: string, buildNumber: Option<string>, st: ReadState)
    requires ReadFields(FieldMembers(value, appVersion, buildNumber), st).Ok?
    ensures ReadFields(FieldMembers(value, appVersion, buildNumber), st).value.settings.directories
         == st.settings.directories + value.directories
  {
    DirectoriesAccumulate(FieldMembers(value, appVersion, buildNumber), st);
    FieldMembersDirectoriesIn(value, appVersion, buildNumber);
  }

  /** The vault entries a written document carries are exactly the written ones. */
  lemma FieldMembersDirectoriesIn(value: Settings, appVersion: string, buildNumber: Option<string>)
    ensures DirectoriesIn(FieldMembers(value, appVersion, buildNumber)) == value.directories
  {
    var ms := FieldMembers(value, appVersion, buildNumber);
    FieldMembersNames(value, appVersion, buildNumber);
    assert ms[1] == (Directories.Name(), JArray(EncodeVaultArray(value.directories)));
    DirectoriesInSingle(ms, 1);
    EncodeVaultArrayRoundTrip(value.directories);
  }

  /** A written document, read from `st`, sets every setting to the written one (vault entries appended). */
  lemma FieldMembersSettings(value: Settings, appVersion: string, buildNumber: Option<string>, st: ReadState)
    ensures ReadFields(FieldMembers(value, appVersion, buildNumber), st).Ok?
    ensures ReadFields(FieldMembers(value, appVersion, buildNumber), st).value.settings
         == value.(directories := st.settings.directories + value.directories)
  {
    var ms := FieldMembers(value, appVersion, buildNumber);
    FieldMembersReadable(value, appVersion, buildNumber, st);
    var end := ReadFields(ms, st).value.settings;
    FieldMembersDirectories(value, appVersion, buildNumber, st);
    forall f: Field
      ensures FieldImage(end, f) == FieldImage(value, f)
    {
      ImageShape(end, value, f);
      if FieldImage(value, f).Some? {
        FieldMembersScalar(value, appVersion, buildNumber, st, f);
      }
    }
    SettingsFromImages(end, value);
  }

  /**
   * Round trip: a written document reads back to the record it was written
   * from, on any OS, except that the vault entries are appended to those
   * the fresh record already holds.
   */
  lemma RoundTrip(value: Settings, appVersion: string, buildNumber: Option<string>, os: OS, defaults: Settings)
    ensures Decode(Encode(value, appVersion, buildNumber), os, defaults)
         == Ok(value.(directories := defaults.directories + value.directories))
  {
    EncodeByField(value, appVersion, buildNumber);
    var ms := FieldMembers(value, appVersion, buildNumber);
    var st := ReadState(defaults, None);
    FieldMembersSettings(value, appVersion, buildNumber, st);
    // No legacy member is written, so no migration follows.
    FieldMembersNames(value, appVersion, buildNumber);
    VolumeImplIsLastLegacyValue(ms, st);
  }
}
