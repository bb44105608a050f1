/**
 * The application settings as a plain record: one field per property the
 * codec reads or writes, plus the ordered list of vault entries.
 */
module SettingsRecord {
  import opened VaultSettingsCodec

  /** Java's `int`: the window geometry, port and notification count. */
  newtype int32 = x: int | -0x8000_0000 <= x < 0x8000_0000

  datatype UiTheme = LIGHT | DARK | AUTOMATIC {
    /** The constant's `name()`: its identifier, in upper case. */
    function Name(): string {
      match this
      case LIGHT => "LIGHT"
      case DARK => "DARK"
      case AUTOMATIC => "AUTOMATIC"
    }
  }

  /** The UI toolkit's node orientation. */
  datatype NodeOrientation = LEFT_TO_RIGHT | RIGHT_TO_LEFT | INHERIT {
    function Name(): string {
      match this
      case LEFT_TO_RIGHT => "LEFT_TO_RIGHT"
      case RIGHT_TO_LEFT => "RIGHT_TO_LEFT"
      case INHERIT => "INHERIT"
    }
  }

  /** The fallbacks for a theme or orientation that names no constant. */
  const DefaultTheme: UiTheme := LIGHT
  const DefaultUserInterfaceOrientation: NodeOrientation := LEFT_TO_RIGHT

  datatype Settings = Settings(
    directories: seq<VaultSettings>,
    askedForUpdateCheck: bool,
    autoCloseVaults: bool,
    checkForUpdates: bool,
    debugMode: bool,
    displayConfiguration: string,
    keychainProvider: string,
    language: string,
    licenseKey: string,
    mountService: string,
    numTrayNotifications: int32,
    port: int32,
    showMinimizeButton: bool,
    showTrayIcon: bool,
    startHidden: bool,
    theme: UiTheme,
    userInterfaceOrientation: NodeOrientation,
    useKeychain: bool,
    windowHeight: int32,
    windowWidth: int32,
    windowXPosition: int32,
    windowYPosition: int32)

  /** The host operating system, as far as the legacy migration tells them apart. */
  datatype OS = Windows | Mac | Linux | OtherOS
}
