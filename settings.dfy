/**
 * The configuration the engine reads: an immutable snapshot holding the
 * built-in defaults unless a configuration file overrode them.
 */
module Settings {

  datatype Config = Config(
    whitelist: map<string, string>,  // trusted hardware address -> display name
    approachDelta: int,              // dB rise between two readings that counts as approaching
    approachWindow: real,            // seconds; carried but not used by any rule
    watchdogTimeout: int,            // seconds of Bluetooth silence before a restart
    wifiInterface: string,
    rssiThresholdAlert: int          // dBm a reading must exceed to raise an alert
  )

  /** The defaults the engine runs with when no configuration file overrides them. */
  const DefaultConfig := Config(map[], 5, 10.0, 10, "wlan0", -85)
}
