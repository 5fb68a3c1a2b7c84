# Gemini Sentry detection core, in Dafny

Gemini Sentry watches the radio neighbourhood of a machine for devices that
come closer. It has two sensors. The Bluetooth sensor reads the `btmon`
stream. The Wi-Fi sensor reads the text of `iw ... scan`. Both hand
(hardware address, signal strength) readings to a fusion engine. The engine
does four things:

- it remembers each untrusted device's last strength, when it was seen and its
  last five strengths;
- it ignores whitelisted devices;
- it queues an approach alert when a known device's strength rose by at least
  `approach_delta` dB to a level above `rssi_threshold_alert`;
- it keeps a heartbeat per sensor.

A watchdog poll restarts a sensor whose heartbeat is stale.

This project models that core of `rf_sentry.py`:

| file | module | what it holds |
|---|---|---|
| `text.dfy` | `Options`, `Text` | `Option`; the Python string operations the parsers use (`\s`, `\d`, `int()`, `upper()`, `strip()`, `split()`) |
| `patterns.dfy` | `Patterns` | the four regular expressions as "match at position p" functions, and `re.search` |
| `pairing.dfy` | `Pairing` | tokens, readings, and the reference definition `Pairs` both parsers are proved against |
| `bluetooth.dfy` | `Bluetooth` | the `btmon` line loop |
| `wifi.dfy` | `Wifi` | the scan-output loop |
| `history.dfy` | `History` | the five-entry strength history |
| `settings.dfy` | `Settings` | the configuration record and its defaults |
| `sentry.dfy` | `Sentry` | the `SentryWatchdog` class (fusion engine, heartbeats, watchdog poll, event queue) and a few example scenarios |

Time is an integer clock passed to every operation. Restarting a sensor is
reported as a flag. The event queue (`EVENT_QUEUE`, a module-level list in
the source) is the `events` field of the engine.

Each parser is a loop over lines that steps a pending address. The model
reduces each line to the tokens it contributes: an address, a signal level,
both (a Wi-Fi line can be both), or nothing. Each parser is proved to emit
exactly `Pairs` of that token stream. `Pairs` is the sequence of
(address, level) pairs that are adjacent in the stream. `PairsAreAdjacent`
and `PairsUseTokensOnce` then state what that means for the readings.

Two behaviours of the Wi-Fi loop that a reader might not expect:

- A Wi-Fi line starting with `BSS` whose address does not match the pattern
  leaves the previous address current. It does not start a new block without
  an address.
- A Wi-Fi line can be both a header and a signal line. Its level is then paired
  with its own address.

## Model

All source paths are under `gemini-sentry-build/usr/local/lib/gemini-sentry/`.

| member | source | states |
|---|---|---|
| Text.DigitsValue | gemini-sentry-build/usr/local/lib/gemini-sentry/rf_sentry.py:210 | `int()` of a string of n decimal digits is a natural number below 10^n |
| Text.IsSpace | gemini-sentry-build/usr/local/lib/gemini-sentry/rf_sentry.py:193-194 | `\s` and `strip()` use Python's whitespace set, and no whitespace character is a digit, a hex letter, `:`, `-`, `.` or `d`, so a whitespace run always ends where a number, an address or `dBm` begins |
| Text.Upper | gemini-sentry-build/usr/local/lib/gemini-sentry/rf_sentry.py:251 | `upper()` keeps the length, maps every character through the ASCII upper-case map, and leaves no lower-case letter |
| Text.UpperFixes | gemini-sentry-build/usr/local/lib/gemini-sentry/rf_sentry.py:132 | a string without lower-case letters is its own upper case, so upper-casing twice changes nothing |
| Text.Strip | gemini-sentry-build/usr/local/lib/gemini-sentry/rf_sentry.py:248 | `strip()` never lengthens a line, leaves it starting and ending with non-whitespace, and keeps a line that already does unchanged |
| Text.StripBounds | gemini-sentry-build/usr/local/lib/gemini-sentry/rf_sentry.py:248 | everything `strip()` cuts off either end is whitespace, and the kept part is bounded by non-whitespace |
| Text.Split | gemini-sentry-build/usr/local/lib/gemini-sentry/rf_sentry.py:247 | `split('\n')` gives at least one piece, no piece holds a newline, and joining the pieces with newlines gives the text back |
| Text.Span | gemini-sentry-build/usr/local/lib/gemini-sentry/rf_sentry.py:193-194 | a greedy character-class run takes every class character from its start and stops before the first one outside the class |
| Patterns.MatchAt | gemini-sentry-build/usr/local/lib/gemini-sentry/rf_sentry.py:193-194 | an address pattern captures exactly 17 characters of its bracket class; an RSSI or signal pattern captures an integer |
| Patterns.SignalAt | gemini-sentry-build/usr/local/lib/gemini-sentry/rf_sentry.py:243 | a match of `signal:\s*(-?\d+)\.\d+ dBm` yields a decimal with at least one digit on each side of the point |
| Patterns.AddressAfter | gemini-sentry-build/usr/local/lib/gemini-sentry/rf_sentry.py:193 | `Address:\s+([0-9A-F:]{17})` (and `^BSS ([0-9A-Fa-f:]{17})` at line 242) captures exactly 17 characters of its bracket class |
| Patterns.RssiAt | gemini-sentry-build/usr/local/lib/gemini-sentry/rf_sentry.py:194 | a match of `RSSI:\s+(-?\d+)\s+dBm` captures an integer |
| Patterns.Leftmost | gemini-sentry-build/usr/local/lib/gemini-sentry/rf_sentry.py:254 | the position found is a match, and the pattern matches at no earlier position |
| Patterns.Search | gemini-sentry-build/usr/local/lib/gemini-sentry/rf_sentry.py:202 | `re.search` fails exactly when the pattern matches at no position; otherwise it returns the capture at the leftmost match |
| Patterns.IntegerPartTruncates | gemini-sentry-build/usr/local/lib/gemini-sentry/rf_sentry.py:256 | `int()` of the captured whole part is the signal level truncated toward zero, less than 1 dB away from it |
| Patterns.BtAddressLine | gemini-sentry-build/usr/local/lib/gemini-sentry/rf_sentry.py:193 | on `Address:`, at least one whitespace character, a 17-character upper-case address and anything after, the pattern captures exactly that address |
| Patterns.BtRssiLine | gemini-sentry-build/usr/local/lib/gemini-sentry/rf_sentry.py:194 | on `RSSI:`, whitespace, an optionally signed run of digits, whitespace and `dBm`, the pattern captures `int()` of the signed digits |
| Patterns.BssLine | gemini-sentry-build/usr/local/lib/gemini-sentry/rf_sentry.py:242 | on `BSS `, a 17-character address of either case and anything after, the pattern captures exactly that address |
| Patterns.SignalLine | gemini-sentry-build/usr/local/lib/gemini-sentry/rf_sentry.py:243 | on `signal:`, optional whitespace, `<n>.<m>` and ` dBm`, the captured level is `int()` of the signed whole part `n` |
| Pairing.AddrReplacesPending | gemini-sentry-build/usr/local/lib/gemini-sentry/rf_sentry.py:203-205 | an address line replaces whatever address was pending and emits nothing |
| Pairing.LevelConsumesPending | gemini-sentry-build/usr/local/lib/gemini-sentry/rf_sentry.py:209-212 | a level line emits one reading with the pending address and clears it; with no address pending it emits nothing |
| Pairing.TakeAddress | gemini-sentry-build/usr/local/lib/gemini-sentry/rf_sentry.py:202-205 | the address step sets the pending address to the one found, or keeps it when none was found, and keeps the loop's pairing invariant |
| Pairing.TakeLevel | gemini-sentry-build/usr/local/lib/gemini-sentry/rf_sentry.py:208-212 | the level step emits exactly one reading (pending address, level) and clears the address when both are present, emits nothing otherwise, and keeps the loop's pairing invariant |
| Pairing.PairsAreAdjacent | gemini-sentry-build/usr/local/lib/gemini-sentry/rf_sentry.py:196-212 | a reading is emitted iff its address token is immediately followed by its level token: the address is the most recent unconsumed one, and a level with no address before it yields nothing |
| Pairing.PairsUseTokensOnce | gemini-sentry-build/usr/local/lib/gemini-sentry/rf_sentry.py:196-212 | there are never more readings than address tokens or than level tokens: each address and each level is used at most once |
| Bluetooth.AddressToken | gemini-sentry-build/usr/local/lib/gemini-sentry/rf_sentry.py:202-204 | an `Address:` line yields one 17-character upper-case hex-or-colon address |
| Bluetooth.RssiToken | gemini-sentry-build/usr/local/lib/gemini-sentry/rf_sentry.py:208-210 | an `RSSI:` line yields at most one signal level |
| Bluetooth.ScanLine | gemini-sentry-build/usr/local/lib/gemini-sentry/rf_sentry.py:201-212 | one pass of the loop body moves the pairing invariant one line on; the pending address and every emitted address stay well-formed |
| Bluetooth.LineToken | gemini-sentry-build/usr/local/lib/gemini-sentry/rf_sentry.py:202-212 | a line yields the address when the address pattern matches (even if it also holds an RSSI field), otherwise the RSSI level when that pattern matches, and nothing iff neither matches |
| Bluetooth.ParseMonitorOutput | gemini-sentry-build/usr/local/lib/gemini-sentry/rf_sentry.py:196-212 | the readings are exactly the adjacent (address, RSSI) pairs of the line tokens, in order; there are no more readings than address lines; every address is well-formed |
| Wifi.UpperMac | gemini-sentry-build/usr/local/lib/gemini-sentry/rf_sentry.py:251 | an address matched by `[0-9A-Fa-f:]{17}` becomes, upper-cased, 17 characters of `[0-9A-F:]` |
| Wifi.HeaderToken | gemini-sentry-build/usr/local/lib/gemini-sentry/rf_sentry.py:249-251 | a `BSS` header yields at most one address, and it is upper case |
| Wifi.SignalToken | gemini-sentry-build/usr/local/lib/gemini-sentry/rf_sentry.py:253-256 | a signal line yields at most one level |
| Wifi.SignalIsIntegerPart | gemini-sentry-build/usr/local/lib/gemini-sentry/rf_sentry.py:254-256 | the level a signal line yields is the integer part of the decimal at the leftmost `signal:` match |
| Wifi.ScanLine | gemini-sentry-build/usr/local/lib/gemini-sentry/rf_sentry.py:248-258 | one pass of the loop body (header, then signal) moves the pairing invariant one line on and keeps addresses upper case |
| Wifi.LineTokens | gemini-sentry-build/usr/local/lib/gemini-sentry/rf_sentry.py:248-256 | a stripped line yields at most an address then a level; the address (upper case) is there iff the `BSS` pattern matches at the start, the level iff the signal pattern matches anywhere |
| Wifi.ParseScanOutput | gemini-sentry-build/usr/local/lib/gemini-sentry/rf_sentry.py:245-258 | the readings are exactly the adjacent (header address, signal level) pairs of the scan's lines, in order; there are at most as many as headers; every address is upper case |
| History.Push | gemini-sentry-build/usr/local/lib/gemini-sentry/rf_sentry.py:153-156 | appending to a buffer of at most five keeps it one to five long and ends it with the new reading |
| History.Window | gemini-sentry-build/usr/local/lib/gemini-sentry/rf_sentry.py:153-156 | the last min(n, 5) readings are at most five and end with the latest one |
| History.PushKeepsWindow | gemini-sentry-build/usr/local/lib/gemini-sentry/rf_sentry.py:153-156 | pushing a reading onto the window of the earlier readings gives the window of all of them |
| History.PushAllKeepsWindow | gemini-sentry-build/usr/local/lib/gemini-sentry/rf_sentry.py:142-156 | after any number of readings the history is exactly the last min(n, 5) strengths, in arrival order |
| Sentry.PushTracks | gemini-sentry-build/usr/local/lib/gemini-sentry/rf_sentry.py:151-156 | updating a tracked record keeps its history one to five long, ending with the stored strength |
| Sentry.DefaultRules | gemini-sentry-build/usr/local/lib/gemini-sentry/rf_sentry.py:16-23 | under the built-in defaults an alert needs a rise of at least 5 dB to above -85 dBm, Bluetooth is stale after more than 10 s and Wi-Fi after more than 30 s, and no address is trusted |
| Sentry.ApproachingMonotone | gemini-sentry-build/usr/local/lib/gemini-sentry/rf_sentry.py:162 | a larger rise to a stronger level still raises an alert, and with a positive delta a reading that did not rise never does |
| Sentry.BtStaleLasts | gemini-sentry-build/usr/local/lib/gemini-sentry/rf_sentry.py:78 | once the Bluetooth heartbeat is more than the timeout old it stays so until a new beat |
| Sentry.WifiStaleLasts | gemini-sentry-build/usr/local/lib/gemini-sentry/rf_sentry.py:84 | once the Wi-Fi heartbeat is more than three timeouts old it stays so; with a non-negative timeout a stale Wi-Fi heartbeat would also be stale for Bluetooth |
| Sentry.SentryWatchdog.constructor | gemini-sentry-build/usr/local/lib/gemini-sentry/rf_sentry.py:50-64 | both heartbeats start at the creation time; tracking and the event queue start empty |
| Sentry.SentryWatchdog.UpdateBeat | gemini-sentry-build/usr/local/lib/gemini-sentry/rf_sentry.py:123-125 | `"bt"` refreshes only the Bluetooth heartbeat, `"wifi"` only the Wi-Fi one; any other source refreshes neither |
| Sentry.SentryWatchdog.ProcessSignal | gemini-sentry-build/usr/local/lib/gemini-sentry/rf_sentry.py:127-173 | the source's heartbeat is refreshed on every call; a whitelisted upper-cased address changes neither tracking nor the queue; a first sighting stores {rssi, now, [rssi]}, changes no other entry and queues nothing; a tracked device gets its strength, time and pushed history updated, and exactly one alert (time, upper-cased address, rise, strength) is appended iff the rise reaches the delta and the strength exceeds the floor; the tracking invariant is kept |
| Sentry.SentryWatchdog.StartBt | gemini-sentry-build/usr/local/lib/gemini-sentry/rf_sentry.py:95-101 | restarting Bluetooth resets its heartbeat to now |
| Sentry.SentryWatchdog.StartWifi | gemini-sentry-build/usr/local/lib/gemini-sentry/rf_sentry.py:103-109 | restarting Wi-Fi resets its heartbeat to now |
| Sentry.SentryWatchdog.Poll | gemini-sentry-build/usr/local/lib/gemini-sentry/rf_sentry.py:73-86 | Bluetooth is restarted iff its heartbeat is more than the timeout old, Wi-Fi iff more than three timeouts; a restarted heartbeat becomes now and the other stays; with a non-negative timeout neither is stale afterwards |
| Sentry.SentryWatchdog.TakeEvent | gemini-sentry-build/usr/local/lib/gemini-sentry/sentry_daemon.py:34-36 | the consumer takes the oldest queued alert and leaves the rest in order, or gets nothing from an empty queue |
| Sentry.ApproachScenario | gemini-sentry-build/usr/local/lib/gemini-sentry/rf_sentry.py:146-173 | under the defaults (5 dB, -85 dBm), -70 then -60 dBm from one device queues exactly one alert, of +10 dB at -60 dBm |
| Sentry.DriftScenario | gemini-sentry-build/usr/local/lib/gemini-sentry/rf_sentry.py:162 | -70 then -69 dBm (a rise of 1 dB) queues no alert |
| Sentry.WhitelistScenario | gemini-sentry-build/usr/local/lib/gemini-sentry/rf_sentry.py:135-139 | a whitelisted device gets neither a record nor an alert |
| Sentry.HistoryScenario | gemini-sentry-build/usr/local/lib/gemini-sentry/rf_sentry.py:153-156 | after six readings the history holds the last five, in arrival order |
| Sentry.FifoScenario | gemini-sentry-build/usr/local/lib/gemini-sentry/rf_sentry.py:162-173 | readings of -80, -70 and -60 dBm from one device raise two alerts, which the consumer takes oldest first; then the queue is empty |

## Left out

- `load_config` and the JSON configuration file (rf_sentry.py:28-44) are file I/O. The configuration is an immutable `Config` value. `DefaultConfig` holds the built-in defaults.
- The subprocesses are left out: `btmon`, `iw`, `rfkill`, `hciconfig`, their termination and the scan timeout. The parsers take the output lines (Bluetooth) or the output text (Wi-Fi) as input. `reset_bt_adapter` (rf_sentry.py:111-121) is not modelled: the `restartBt` flag `Poll` returns stands for both the adapter reset and the restart.
- Threads, the `running` flags, `stop()`, `is_alive`, and every `time.sleep` are left out. A sensor restart is the heartbeat reset plus a flag returned by `Poll`.
- `time.time()` is a float clock. The model uses one integer `now` per operation. `process_signal` reads the clock twice (in `update_beat` and again itself); the model uses one value for both. `watchdog_timeout` is an integer.
- Sentry.SentryWatchdog.Poll: a Bluetooth restart stamps the heartbeat with the poll's `now`. The source reads the clock again after the adapter reset, which has slept about three seconds.
- Sentry.SentryWatchdog.ProcessSignal: an alert keeps the values the message is built from (address, rise, strength). The formatted message text, the `"type": "alert"` tag and logging are left out.
- Readings are handed to the engine one at a time as they are parsed. The model returns the parsed readings as a sequence. It does not interleave them with `ProcessSignal` calls.
- `\d` and `int()` are modelled on ASCII digits only. Python's `str` patterns also accept other Unicode decimal digits. Likewise `upper()` is modelled on ASCII letters only. This covers every address the patterns can capture.
- Wi-Fi sensor startup with the undefined `WIFI_IFACE` (rf_sentry.py:239) is left out. The resulting error is caught and logged, so as written the Wi-Fi loop never receives scan output. The parser is modelled on given scan text.
- Everything else in `sentry_daemon.py` is left out: the signal handler that injects a test alert, the alert window, and the main loop. Only the queue's `pop(0)` is modelled.
- `approach_window` and `wifi_interface` are carried in `Config` but used by no rule.
