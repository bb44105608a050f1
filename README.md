# Cryptomator settings codec, modelled in Dafny

This project models `SettingsJsonAdapter`, the Gson type adapter that stores
Cryptomator's application settings as one JSON object and reads them back.

- **Writing** (`write`, `writeVaultSettingsArray`) emits a fixed, ordered list
  of members:
  - first the `writtenByVersion` stamp, then the `directories` array of vault
    entries, then one member per scalar setting;
  - the theme and the UI orientation are written by their constant names.
- **Reading** (`read`, `readVaultSettingsArray`) starts from a fresh settings
  record and consumes the object's members in document order, dispatching on
  each name:
  - a scalar member overwrites its setting, so the last occurrence wins;
  - `directories` appends the entries of its array;
  - `writtenByVersion` and unknown names are skipped;
  - the legacy (1.6.x) `preferredVolumeImpl` is only remembered.
- **Migration.** Once the object is consumed, a remembered legacy volume
  implementation is converted to a mount service identifier for the host OS.
- **Enum parsing.** The theme and orientation parsers upper-case their input
  and fall back to a default for a name that matches no constant.

The model has these parts:
- `Json`: an abstract JSON document. An object is the sequence of its
  members, duplicates included.
- `SettingsRecord`: the settings as a plain record.
- `VaultSettingsCodec`: a stand-in for the vault entry adapter.
- `SettingsJsonAdapter`: the codec.
  - Its specification functions are `ReadField`, `ReadFields`, `Decode` and
    `Encode`.
  - Its methods `Read`, `ReadVaultSettingsArray`, `Write` and
    `WriteVaultSettingsArray` are the adapter's loops and emitters, each proved
    equal to its specification function.
- `SettingsJsonAdapterProperties`: the properties of the codec.
- `SettingsJsonAdapterIntended`: the read as its design documents it, for the
  two places where the code falls short of it (see "## Findings").

A read that fails is an `Err` carrying the reader's error. The model treats
the Gson reader as strict: `nextBoolean`, `nextInt` and `nextString` demand a
value of their own type, and `nextInt` demands one in the 32-bit range.

## Model

Source paths are relative to the repository root.

| member | source | states |
|---|---|---|
| SettingsJsonAdapter.ParseUiTheme | src/main/java/org/cryptomator/common/settings/SettingsJsonAdapter.java:156-163 | the result is the theme whose name is the upper-cased input; if no theme has that name, the result is the default theme (no failure) |
| SettingsJsonAdapter.ParseUiOrientation | src/main/java/org/cryptomator/common/settings/SettingsJsonAdapter.java:165-172 | the same for node orientations, falling back to the default orientation |
| SettingsJsonAdapter.ToUpper | src/main/java/org/cryptomator/common/settings/SettingsJsonAdapter.java:158 | the upper-casing applied before `valueOf`: same length, each ASCII lower-case letter replaced by its capital, every other character kept, no lower-case letter left |
| SettingsJsonAdapter.NextBoolean | src/main/java/org/cryptomator/common/settings/SettingsJsonAdapter.java:87 | the typed read `nextBoolean`: succeeds exactly on a boolean, giving that boolean; otherwise an error naming the member |
| SettingsJsonAdapter.NextInt | src/main/java/org/cryptomator/common/settings/SettingsJsonAdapter.java:101 | the typed read `nextInt`: succeeds exactly on a number in the 32-bit range, giving that number; a non-number and an out-of-range number are distinct errors |
| SettingsJsonAdapter.NextString | src/main/java/org/cryptomator/common/settings/SettingsJsonAdapter.java:91 | the typed read `nextString`: succeeds exactly on a string, giving that string; otherwise an error naming the member |
| SettingsJsonAdapterProperties.ParseUiThemeName | src/main/java/org/cryptomator/common/settings/SettingsJsonAdapter.java:156-158 | every theme parses back from its name, in upper case and in lower case |
| SettingsJsonAdapterProperties.ParseUiOrientationName | src/main/java/org/cryptomator/common/settings/SettingsJsonAdapter.java:165-167 | every orientation parses back from its name, in upper case and in lower case |
| SettingsJsonAdapterProperties.ParseUiThemeCaseInsensitive | src/main/java/org/cryptomator/common/settings/SettingsJsonAdapter.java:156-163 | two inputs with the same upper-casing parse alike; an input naming no theme gives the default, and only such an input gives the default without spelling its name |
| SettingsJsonAdapterProperties.ParseUiThemeExamples | src/main/java/org/cryptomator/common/settings/SettingsJsonAdapter.java:156-172 | "dark" and "DARK" give DARK and "right_to_left" gives RIGHT_TO_LEFT; "not_a_theme" and "sideways" give the defaults |
| SettingsJsonAdapter.ConvertLegacyVolumeImplToMountService | src/main/java/org/cryptomator/common/settings/SettingsJsonAdapter.java:134-154 | total: every string and OS gives one of the seven identifiers, and the Dokany provider is given exactly for "Dokany" |
| SettingsJsonAdapterProperties.LegacyMountServicesCount | src/main/java/org/cryptomator/common/settings/SettingsJsonAdapter.java:134-154 | the conversion's possible results are seven distinct identifiers |
| SettingsJsonAdapterProperties.LegacyConversionTable | src/main/java/org/cryptomator/common/settings/SettingsJsonAdapter.java:134-154 | "Dokany" gives the Dokany provider on every OS; "FUSE" gives WinFsp, macFUSE or Linux FUSE by host; any other string gives the Windows, AppleScript or GIO WebDAV mounter by host |
| SettingsJsonAdapterProperties.LegacyConversionDistinguishes | src/main/java/org/cryptomator/common/settings/SettingsJsonAdapter.java:134-154 | two conversions agree exactly when they concern the same technology and, except for Dokany, the same host family |
| SettingsJsonAdapter.FieldNamed | src/main/java/org/cryptomator/common/settings/SettingsJsonAdapter.java:84-119 | the switch finds no case label only for a name that no label is spelled as |
| SettingsJsonAdapterProperties.FieldNamedExactly | src/main/java/org/cryptomator/common/settings/SettingsJsonAdapter.java:84-114 | the switch selects a case label exactly when the member name is spelled as that label |
| SettingsJsonAdapterProperties.NameInjective | src/main/java/org/cryptomator/common/settings/SettingsJsonAdapter.java:85-114 | no two case labels have the same spelling |
| SettingsJsonAdapterProperties.UnknownName | src/main/java/org/cryptomator/common/settings/SettingsJsonAdapter.java:116-119 | a member goes to the default branch exactly when no case label is spelled as its name |
| SettingsJsonAdapter.DecodeVaultItems | src/main/java/org/cryptomator/common/settings/SettingsJsonAdapter.java:174-182 | the array reads exactly when every element reads, into one entry per element in array order |
| SettingsJsonAdapter.DecodeVaultArray | src/main/java/org/cryptomator/common/settings/SettingsJsonAdapter.java:176 | a `directories` value that is not an array is an error |
| SettingsJsonAdapter.ReadKnownField | src/main/java/org/cryptomator/common/settings/SettingsJsonAdapter.java:85-114 | a dispatched member reads exactly when its value has the shape its setter takes: boolean, 32-bit integer, string, array of vault objects, or anything for the version stamp |
| SettingsJsonAdapter.ReadField | src/main/java/org/cryptomator/common/settings/SettingsJsonAdapter.java:83-120 | one turn of the loop succeeds exactly when the member is unknown or its value has the accepted shape |
| SettingsJsonAdapter.ReadFields | src/main/java/org/cryptomator/common/settings/SettingsJsonAdapter.java:82-122 | the loop succeeds exactly when every member is readable |
| SettingsJsonAdapter.Decode | src/main/java/org/cryptomator/common/settings/SettingsJsonAdapter.java:75-132 | a document decodes exactly when it is an object whose every member is readable; a non-object fails at `beginObject` |
| SettingsJsonAdapter.ReadFieldOnDirectories | src/main/java/org/cryptomator/common/settings/SettingsJsonAdapter.java:86 | a `directories` member appends the entries its array reads to, or fails with the array's error |
| SettingsJsonAdapter.Migrate | src/main/java/org/cryptomator/common/settings/SettingsJsonAdapter.java:125-129 | with a remembered legacy value, the mount service becomes its conversion for the OS and every other setting is as the loop left it; without one, the settings are unchanged |
| SettingsJsonAdapter.DecodeVaultItemsKeepsError | src/main/java/org/cryptomator/common/settings/SettingsJsonAdapter.java:177-179 | once an entry fails, reading the whole array fails with that error |
| SettingsJsonAdapter.ReadFieldsKeepsError | src/main/java/org/cryptomator/common/settings/SettingsJsonAdapter.java:82-122 | once a member fails, reading the whole object fails with that error |
| SettingsJsonAdapter.VersionStamp | src/main/java/org/cryptomator/common/settings/SettingsJsonAdapter.java:40 | the stamp is the app version followed by "-" and the build number when there is one, and by nothing otherwise |
| SettingsJsonAdapter.EncodeVaultArray | src/main/java/org/cryptomator/common/settings/SettingsJsonAdapter.java:67-73 | one nested object per vault entry, in collection order |
| SettingsJsonAdapter.Encode | src/main/java/org/cryptomator/common/settings/SettingsJsonAdapter.java:37-65 | the written document is an object with one member per written field (23 members) |
| SettingsJsonAdapter.WriteVaultSettingsArray | src/main/java/org/cryptomator/common/settings/SettingsJsonAdapter.java:67-73 | the loop emits the array EncodeVaultArray describes |
| SettingsJsonAdapter.Write | src/main/java/org/cryptomator/common/settings/SettingsJsonAdapter.java:37-65 | the member-by-member emitter produces the document Encode describes |
| SettingsJsonAdapter.ReadVaultSettingsArray | src/main/java/org/cryptomator/common/settings/SettingsJsonAdapter.java:174-182 | the loop returns what DecodeVaultArray describes, stopping at the first bad entry |
| SettingsJsonAdapter.ReadDirectories | src/main/java/org/cryptomator/common/settings/SettingsJsonAdapter.java:86 | the `directories` branch of the read loop, using ReadVaultSettingsArray, does what ReadField describes for that member |
| SettingsJsonAdapter.Read | src/main/java/org/cryptomator/common/settings/SettingsJsonAdapter.java:75-132 | the read loop followed by the migration returns exactly what Decode describes, error cases included |
| SettingsJsonAdapterProperties.ReadKnownFieldFrame | src/main/java/org/cryptomator/common/settings/SettingsJsonAdapter.java:85-114 | only `preferredVolumeImpl` changes the remembered legacy value, and only `directories` changes the vault entries |
| SettingsJsonAdapterProperties.ReadKnownFieldMountService | src/main/java/org/cryptomator/common/settings/SettingsJsonAdapter.java:95-100 | a `mountService` string is stored; any other value is not read and the read fails where the next name is due |
| SettingsJsonAdapterProperties.ReadKnownFieldImage | src/main/java/org/cryptomator/common/settings/SettingsJsonAdapter.java:87-112 | a dispatched member sets the scalar it names (enum names parsed) and leaves every other scalar unchanged |
| SettingsJsonAdapterProperties.ReadFieldImage | src/main/java/org/cryptomator/common/settings/SettingsJsonAdapter.java:83-112 | the same for any member: only the scalar spelled as the member's name changes |
| SettingsJsonAdapterProperties.LastWriteWins | src/main/java/org/cryptomator/common/settings/SettingsJsonAdapter.java:82-112 | after a successful read each scalar holds the last value given for it in the document, or its prior value if it is absent |
| SettingsJsonAdapterProperties.ReadFieldDirectories | src/main/java/org/cryptomator/common/settings/SettingsJsonAdapter.java:86 | a member adds vault entries only if it is `directories`, and then after the existing ones |
| SettingsJsonAdapterProperties.ReadFieldVolumeImpl | src/main/java/org/cryptomator/common/settings/SettingsJsonAdapter.java:114 | a member changes the remembered legacy value only if it is `preferredVolumeImpl`, and then to its string |
| SettingsJsonAdapterProperties.DirectoriesAppend | src/main/java/org/cryptomator/common/settings/SettingsJsonAdapter.java:174-182 | with M prior entries and an array of N elements, the result has M+N entries: the prior ones unchanged, then one decoded entry per element in array order |
| SettingsJsonAdapterProperties.DirectoriesAccumulate | src/main/java/org/cryptomator/common/settings/SettingsJsonAdapter.java:86 | repeated `directories` members accumulate: the result is the prior entries followed by every member's entries, in document order |
| SettingsJsonAdapterProperties.VolumeImplIsLastLegacyValue | src/main/java/org/cryptomator/common/settings/SettingsJsonAdapter.java:114 | after a successful read the remembered legacy value is the last `preferredVolumeImpl` string, or the initial one if there is none |
| SettingsJsonAdapterProperties.ReadFieldsAppend | src/main/java/org/cryptomator/common/settings/SettingsJsonAdapter.java:82-122 | reading two runs of members one after the other is reading their concatenation |
| SettingsJsonAdapterProperties.SkippedMember | src/main/java/org/cryptomator/common/settings/SettingsJsonAdapter.java:116-119 | an unknown member, or `writtenByVersion`, reads without error and leaves the whole state unchanged |
| SettingsJsonAdapterProperties.UnknownMemberIgnored | src/main/java/org/cryptomator/common/settings/SettingsJsonAdapter.java:116-119 | inserting an unknown member or a version stamp anywhere in a document does not change what it decodes to, errors included |
| SettingsJsonAdapterProperties.MountServiceAfterDecode | src/main/java/org/cryptomator/common/settings/SettingsJsonAdapter.java:123-128 | after a successful read the mount service is the conversion of the last legacy value if there is one, whatever the order and any `mountService` member; otherwise the last `mountService` string; otherwise the default |
| SettingsJsonAdapterProperties.NoLegacyMemberNoMigration | src/main/java/org/cryptomator/common/settings/SettingsJsonAdapter.java:125-129 | without a `preferredVolumeImpl` member the result does not depend on the OS and is exactly what the loop left |
| SettingsJsonAdapterProperties.NonStringMountServiceFails | src/main/java/org/cryptomator/common/settings/SettingsJsonAdapter.java:95-100 | a readable prefix followed by a non-string `mountService` makes the whole read fail, with the error of a value where a name was due |
| SettingsJsonAdapterProperties.NonStringEnumFails | src/main/java/org/cryptomator/common/settings/SettingsJsonAdapter.java:106-107 | a readable prefix followed by a non-string `theme` or `uiOrientation` makes the whole read fail with `nextString`'s error; the fallback parse is never reached |
| SettingsJsonAdapterProperties.MalformedFlagFails | src/main/java/org/cryptomator/common/settings/SettingsJsonAdapter.java:90 | `{"debugMode": "yes"}` fails with `nextBoolean`'s error: a malformed typed scalar aborts the read |
| SettingsJsonAdapterProperties.EncodeByField | src/main/java/org/cryptomator/common/settings/SettingsJsonAdapter.java:38-64 | every written member is named exactly as the case label that reads it, and holds the setting in the form that label reads |
| SettingsJsonAdapterProperties.WrittenFieldsDistinct | src/main/java/org/cryptomator/common/settings/SettingsJsonAdapter.java:40-63 | each member is written once, and `preferredVolumeImpl` never |
| SettingsJsonAdapterProperties.WrittenFieldsCover | src/main/java/org/cryptomator/common/settings/SettingsJsonAdapter.java:40-63 | every case label except the legacy one is written |
| SettingsJsonAdapterProperties.EncodeVaultArrayRoundTrip | src/main/java/org/cryptomator/common/settings/SettingsJsonAdapter.java:174-182 | the array written for some vault entries reads back to those entries |
| SettingsJsonAdapterProperties.WrittenValueAccepted | src/main/java/org/cryptomator/common/settings/SettingsJsonAdapter.java:43-63 | every written value has the shape its member is read as |
| SettingsJsonAdapterProperties.NormalizedImage | src/main/java/org/cryptomator/common/settings/SettingsJsonAdapter.java:106-107 | a written scalar is stored unchanged when read back; in particular an enum's name parses to that enum |
| SettingsJsonAdapterProperties.FieldMembersNames | src/main/java/org/cryptomator/common/settings/SettingsJsonAdapter.java:40-63 | the member names of a written document are distinct, and none is `preferredVolumeImpl` |
| SettingsJsonAdapterProperties.FieldMembersReadable | src/main/java/org/cryptomator/common/settings/SettingsJsonAdapter.java:83-112 | every member of a written document reads without error |
| SettingsJsonAdapterProperties.FieldMembersScalar | src/main/java/org/cryptomator/common/settings/SettingsJsonAdapter.java:87-112 | each scalar of a written document reads back as the value it was written from |
| SettingsJsonAdapterProperties.FieldMembersLastImage | src/main/java/org/cryptomator/common/settings/SettingsJsonAdapter.java:43-63 | in a written document, the last value given for a scalar's name is that scalar as written |
| SettingsJsonAdapterProperties.FieldMembersDirectoriesIn | src/main/java/org/cryptomator/common/settings/SettingsJsonAdapter.java:41-42 | the vault entries a written document carries are exactly the written ones |
| SettingsJsonAdapterProperties.FieldMembersDirectories | src/main/java/org/cryptomator/common/settings/SettingsJsonAdapter.java:86 | reading a written document appends the written vault entries, in order, to those already held |
| SettingsJsonAdapterProperties.FieldMembersSettings | src/main/java/org/cryptomator/common/settings/SettingsJsonAdapter.java:82-122 | reading a written document sets every setting to the written one, with the vault entries appended |
| SettingsJsonAdapterProperties.RoundTrip | src/main/java/org/cryptomator/common/settings/SettingsJsonAdapter.java:37-132 | on any OS, the document written from a record decodes to that record, except that its vault entries follow those of the fresh record |
| SettingsJsonAdapterIntended.ReadFieldIntended | src/main/java/org/cryptomator/common/settings/SettingsJsonAdapter.java:95-107 | the corrected cases: a non-string `mountService` is skipped and the state is kept; a non-string `theme` or `uiOrientation` sets that setting to its default |
| SettingsJsonAdapterIntended.ReadFieldsIntended | src/main/java/org/cryptomator/common/settings/SettingsJsonAdapter.java:82-122 | the corrected loop succeeds exactly when every member is readable or is a non-string `mountService`, `theme` or `uiOrientation` |
| SettingsJsonAdapterIntended.DecodeIntended | src/main/java/org/cryptomator/common/settings/SettingsJsonAdapter.java:75-132 | the corrected whole read: a non-object fails at `beginObject`; otherwise it decodes exactly when every member is readable or is a non-string `mountService`, `theme` or `uiOrientation`, and then the same migration as Decode applies |
| SettingsJsonAdapterIntended.ReadFieldIntendedAgrees | src/main/java/org/cryptomator/common/settings/SettingsJsonAdapter.java:83-120 | the correction changes nothing for any member other than a non-string `mountService`, `theme` or `uiOrientation` |
| SettingsJsonAdapterIntended.ReadFieldsIntendedAppend | src/main/java/org/cryptomator/common/settings/SettingsJsonAdapter.java:82-122 | reading two runs of members one after the other with the corrected loop is reading their concatenation |
| SettingsJsonAdapterIntended.NonStringMountServiceSkipped | src/main/java/org/cryptomator/common/settings/SettingsJsonAdapter.java:95-100 | as intended, a non-string `mountService` member anywhere in a document leaves what it decodes to unchanged, errors included |
| SettingsJsonAdapterIntended.ReadFieldsIntendedAgrees | src/main/java/org/cryptomator/common/settings/SettingsJsonAdapter.java:82-122 | on members without a non-string `mountService`, `theme` or `uiOrientation`, the corrected loop and the adapter's loop give the same result |
| SettingsJsonAdapterIntended.DecodeIntendedAgrees | src/main/java/org/cryptomator/common/settings/SettingsJsonAdapter.java:75-132 | on documents without a non-string `mountService`, `theme` or `uiOrientation`, the corrected decode and Decode give the same result |
| SettingsJsonAdapterIntended.NonStringMountServiceCounterexample | src/main/java/org/cryptomator/common/settings/SettingsJsonAdapter.java:95-100 | `{"mountService": 123}` fails as written and decodes to the defaults as intended |
| SettingsJsonAdapterIntended.FallbackAsDefaultName | src/main/java/org/cryptomator/common/settings/SettingsJsonAdapter.java:106-107 | as intended, one step on a non-string `theme` or `uiOrientation` equals the step on a string naming that setting's default |
| SettingsJsonAdapterIntended.NonStringEnumDefaulted | src/main/java/org/cryptomator/common/settings/SettingsJsonAdapter.java:106-107 | as intended, a non-string `theme` or `uiOrientation` anywhere in a document decodes as the default's name would, and the document decodes exactly when it does without that member |
| SettingsJsonAdapterIntended.NonStringThemeCounterexample | src/main/java/org/cryptomator/common/settings/SettingsJsonAdapter.java:106 | `{"theme": true}` fails with `ExpectedString` as written and decodes to the defaults with the default theme as intended |
| SettingsJsonAdapterIntended.NonStringOrientationCounterexample | src/main/java/org/cryptomator/common/settings/SettingsJsonAdapter.java:107 | `{"uiOrientation": null}` fails with `ExpectedString` as written and decodes to the defaults with the default orientation as intended |
| VaultSettingsCodec.EncodeVault | src/main/java/org/cryptomator/common/settings/SettingsJsonAdapter.java:70 | one vault entry is written as one nested object |
| VaultSettingsCodec.DecodeVault | src/main/java/org/cryptomator/common/settings/SettingsJsonAdapter.java:178 | one vault entry reads exactly from an object; anything else fails |
| VaultSettingsCodec.VaultRoundTrip | src/main/java/org/cryptomator/common/settings/SettingsJsonAdapter.java:29 | the vault entry adapter reads back what it writes |

## Left out

- Gson's streaming mechanics (`JsonReader`, `JsonWriter`, `peek`, `skipValue`, `IOException`) are replaced by an abstract JSON document, and its token-state errors by one `ReadError` value per failure.
- SettingsJsonAdapter.NextString: Gson's coercion of a number to a string is not modelled. `{"theme": 1}` decodes to the default theme in the adapter, because `nextString` returns "1", but is `Err(ExpectedString("theme"))` in the model. The same holds for `"preferredVolumeImpl": 5`.
- SettingsJsonAdapter.NextInt: Gson's coercion of a quoted number, or of a number such as `1.0`, to an int is not modelled. `"port": "8080"` sets the port in the adapter but is `Err(ExpectedNumber("port"))` in the model. JSON numbers are integers only.
- A JSON `null` given to `nextString` is an error in the model. Null strings are not modelled.
- SettingsJsonAdapterProperties.RoundTrip: the round trip covers string settings that are not null. In the adapter, a null string setting (lines 47-51) is written as `null` or not at all, not as a string. The record's strings cannot be null.
- `VaultSettingsJsonAdapter` is not part of this model. A vault entry is represented by the members of its nested object, so that its encode/decode pair is exactly inverse.
- `Settings` is not part of this model.
  - Its JavaFX property holders become a plain record.
  - Its defaults are the `defaults` parameter of `Decode` and `Read`.
  - `Settings.DEFAULT_THEME` and `Settings.DEFAULT_USER_INTERFACE_ORIENTATION` are taken as LIGHT and LEFT_TO_RIGHT.
- VaultSettingsCodec.DecodeVault: the stand-in reads every JSON object as a vault entry. The real `VaultSettingsJsonAdapter` is not part of this model and may reject an object with malformed members. The "reads exactly when" contracts of `Accepts`, `ReadKnownField`, `ReadField`, `ReadFields` and `Decode` therefore promise success for any array of objects under `directories`, which holds only of the stand-in.
- SettingsJsonAdapter.ParseUiTheme: the `UiTheme` enum is not part of this model. Its constants are taken as LIGHT, DARK and AUTOMATIC, and the parse table depends on that choice.
- Host OS detection (`SystemUtils.IS_OS_*`) is the `os` parameter. `Environment.getAppVersion` and `getBuildNumber` are the `appVersion` and `buildNumber` parameters.
- The `LOG.warn` calls are left out: logging has no effect on the result.
- Dependency injection annotations are left out.
- SettingsJsonAdapter.ParseUiTheme: `String.toUpperCase` uses the default locale and is modelled as ASCII upper-casing. Under a Turkish locale `i` becomes `İ`, so `"automatic"` falls back to the default theme in the adapter but parses to AUTOMATIC in the model.
- SettingsJsonAdapter.ParseUiOrientation: the same ASCII restriction applies. Under a Turkish locale, `"inherit"` and `"right_to_left"` fall back to the default orientation in the adapter but parse to INHERIT and RIGHT_TO_LEFT in the model.
- SettingsJsonAdapter.Read: the streaming reader sees the object as an ordered list of members. A truncated or syntactically broken document is outside the model.

## Notes on the code

- **Number of migration targets.** The legacy conversion has seven possible
  results:
  - Dokany;
  - three FUSE providers (WinFsp, macFUSE, Linux FUSE);
  - three WebDAV mounters (Windows, AppleScript, GIO).

  `LegacyMountServicesCount` states seven.

- **Malformed scalars abort the read.** A value of the wrong type for a
  boolean, integer or string setting aborts the whole read at its typed
  read. For example, `"debugMode": "yes"` fails at `nextBoolean` (line 90),
  as `MalformedFlagFails` states. No setting other than the theme and the
  orientation has a fallback in the code. The model follows the code here
  and proposes no correction.
- **Numbers as enum names.** A JSON number is the one non-string that the
  adapter does tolerate for `theme` and `uiOrientation`. `nextString`
  coerces it to its digits, which name no constant, so the default is used.
  The model leaves that coercion out (see the `SettingsJsonAdapter.NextString`
  line under "## Left out"). There a number fails as written, and the
  corrected read gives the default.

## Findings

| source | as written | input that shows it | evidently intended | confidence | as-written member | corrected member |
|---|---|---|---|---|---|---|
| src/main/java/org/cryptomator/common/settings/SettingsJsonAdapter.java:95-100 | a non-string `mountService` value is peeked at but neither read nor skipped, so the loop's next `nextName` (line 83) meets a value where a name is due and the read throws | `{"mountService": 123}` | the value is skipped and `mountService` keeps its prior value; the rest of the document decodes | high (not executed) | SettingsJsonAdapterIntended.NonStringMountServiceCounterexample | SettingsJsonAdapterIntended.NonStringMountServiceSkipped |
| src/main/java/org/cryptomator/common/settings/SettingsJsonAdapter.java:106-107 | the `theme` and `uiOrientation` values are read with `nextString` before the fallback parse, so a boolean, `null`, array or object throws, and the `catch` at lines 159 and 168 only covers `valueOf` | `{"theme": true}`, `{"uiOrientation": null}` | a value that is not a string falls back to the setting's default, as one naming no constant does; the rest of the document decodes | medium (not executed) | SettingsJsonAdapterIntended.NonStringThemeCounterexample | SettingsJsonAdapterIntended.NonStringEnumDefaulted |

The codec as modelled (`ReadKnownField`, `Decode`, `Read`) follows the code as
written. `NonStringMountServiceFails` and `NonStringEnumFails` prove that such
a member makes the whole read fail. The corrected read (`ReadFieldIntended`,
`DecodeIntended`) skips a non-string `mountService` and gives a non-string
`theme` or `uiOrientation` its default. `DecodeIntendedAgrees` proves that it
agrees with `Decode` on every document without such a member.
