/**
 * The fusion engine and watchdog of the sentry (`SentryWatchdog`): every
 * (address, signal strength) reading from either sensor refreshes that
 * sensor's heartbeat, updates the per-device tracking record and, when a known
 * untrusted device has come markedly closer, appends an alert to the event
 * queue; a periodic poll restarts a sensor whose heartbeat has gone stale.
 *
 * Time is an integer clock passed in by the caller; restarting a sensor is
 * reported as a flag instead of starting a thread.
 */
module Sentry {
  import opened Options
  import opened Text
  import opened History
  import opened Settings

  /** What the engine remembers about one device: last strength, when it was seen, recent strengths. */
  datatype Record = Record(rssi: int, ts: int, history: seq<int>)

  /**
   * An approach alert as the queue holds it; the message text is kept as the
   * values it is formatted from (the address, the rise in dB and the strength).
   */
  datatype Event = Alert(ts: int, mac: string, delta: int, rssi: int)

  /** The alert rule: a rise of at least `approachDelta` dB to a strength above the alert floor. */
  predicate Approaching(config: Config, delta: int, rssi: int) {
    delta >= config.approachDelta && rssi > config.rssiThresholdAlert
  }

  /** The Bluetooth sensor has been silent for longer than the timeout. */
  predicate BtStale(now: int, beat: int, timeout: int) {
    now - beat > timeout
  }

  /** The Wi-Fi sensor, which scans more slowly, gets three times the timeout. */
  predicate WifiStale(now: int, beat: int, timeout: int) {
    now - beat > timeout * 3
  }

  /** Under the built-in defaults: alert on a rise of 5 dB to above -85 dBm, restart after 10 s (Wi-Fi 30 s), trust nobody. */
  lemma DefaultRules(delta: int, rssi: int, now: int, beat: int, mac: string)
    ensures Approaching(DefaultConfig, delta, rssi) <==> delta >= 5 && rssi > -85
    ensures BtStale(now, beat, DefaultConfig.watchdogTimeout) <==> now - beat > 10
    ensures WifiStale(now, beat, DefaultConfig.watchdogTimeout) <==> now - beat > 30
    ensures mac !in DefaultConfig.whitelist
  {
  }

  /**
   * A larger rise to a stronger level is still an approach; with a positive
   * delta, no reading that did not rise is one.
   */
  lemma ApproachingMonotone(config: Config, delta: int, rssi: int, delta2: int, rssi2: int)
    requires Approaching(config, delta, rssi) && delta <= delta2 && rssi <= rssi2
    ensures Approaching(config, delta2, rssi2)
    ensures config.approachDelta > 0 ==> delta > 0
  {
  }

  /** A silent Bluetooth sensor stays stale as time goes on. */
  lemma BtStaleLasts(now: int, later: int, beat: int, timeout: int)
    requires BtStale(now, beat, timeout) && now <= later
    ensures BtStale(later, beat, timeout)
  {
  }

  /**
   * A silent Wi-Fi sensor stays stale as time goes on, and with a
   * non-negative timeout it is only stale where a Bluetooth heartbeat of the
   * same age would be too.
   */
  lemma WifiStaleLasts(now: int, later: int, beat: int, timeout: int)
    requires WifiStale(now, beat, timeout) && now <= later
    ensures WifiStale(later, beat, timeout)
    ensures timeout >= 0 ==> BtStale(now, beat, timeout)
  {
  }

  /**
   * A record the engine may hold for device `mac`: the address is upper case
   * and not trusted, and the history holds one to five readings, the latest
   * of which is the stored strength.
   */
  predicate Tracks(config: Config, mac: string, record: Record) {
    && Upper(mac) == mac
    && mac !in config.whitelist
    && 1 <= |record.history| <= Capacity
    && record.history[|record.history| - 1] == record.rssi
  }

  /** Every record of `tracking` is one `Tracks` allows for its key. */
  predicate AllTracked(config: Config, tracking: map<string, Record>) {
    forall m :: m in tracking ==> Tracks(config, m, tracking[m])
  }

  /** Storing an allowed record keeps every record allowed. */
  lemma Store(config: Config, tracking: map<string, Record>, key: string, record: Record)
    requires AllTracked(config, tracking) && Tracks(config, key, record)
    ensures AllTracked(config, tracking[key := record])
  {
  }

  /** A reading pushed onto an allowed record leaves it allowed: the history stays one to five long. */
  lemma PushTracks(config: Config, key: string, record: Record, rssi: int, now: int)
    requires Tracks(config, key, record)
    ensures Tracks(config, key, Record(rssi, now, Push(record.history, rssi)))
  {
  }

  class SentryWatchdog {
    const config: Config
    var btLastBeat: int
    var wifiLastBeat: int
    /** The per-device records, keyed by upper-case hardware address. */
    var tracking: map<string, Record>
    /** The shared event queue, oldest alert first. */
    var events: seq<Event>

    /** Every record is one `Tracks` allows. */
    ghost predicate Valid()
      reads this
    {
      AllTracked(config, tracking)
    }

    constructor (config: Config, now: int)
      ensures Valid()
      ensures this.config == config
      ensures btLastBeat == now && wifiLastBeat == now
      ensures tracking == map[] && events == []
    {
      this.config := config;
      btLastBeat, wifiLastBeat := now, now;
      tracking, events := map[], [];
    }

    /** Refreshes the heartbeat of the named sensor; any other source name changes nothing. */
    method UpdateBeat(source: string, now: int)
      modifies this`btLastBeat, this`wifiLastBeat
      ensures btLastBeat == if source == "bt" then now else old(btLastBeat)
      ensures wifiLastBeat == if source == "wifi" then now else old(wifiLastBeat)
    {
      if source == "bt" {
        btLastBeat := now;
      }
      if source == "wifi" {
        wifiLastBeat := now;
      }
    }

    /**
     * One reading from sensor `source` at time `now`. The heartbeat is refreshed
     * whatever follows. A whitelisted address changes nothing else; a first
     * sighting records a baseline and never alerts; a tracked device gets its
     * record updated and exactly one alert appended iff it is approaching.
     */
    method ProcessSignal(mac: string, rssi: int, source: string, now: int)
      requires Valid()
      modifies this
      ensures Valid()
      ensures btLastBeat == if source == "bt" then now else old(btLastBeat)
      ensures wifiLastBeat == if source == "wifi" then now else old(wifiLastBeat)
      ensures Upper(mac) in config.whitelist ==>
        tracking == old(tracking) && events == old(events)
      ensures Upper(mac) !in config.whitelist && Upper(mac) !in old(tracking) ==>
        && tracking == old(tracking)[Upper(mac) := Record(rssi, now, [rssi])]
        && events == old(events)
      ensures Upper(mac) !in config.whitelist && Upper(mac) in old(tracking) ==>
        var key, prev := Upper(mac), old(tracking)[Upper(mac)];
        && tracking == old(tracking)[key := Record(rssi, now, Push(prev.history, rssi))]
        && events == old(events) +
             (if Approaching(config, rssi - prev.rssi, rssi) then [Alert(now, key, rssi - prev.rssi, rssi)] else [])
    {
      UpdateBeat(source, now);
      var key := Upper(mac);
      UpperFixes(key);
      if key in config.whitelist {
        return;
      }
      if key !in tracking {
        Store(config, tracking, key, Record(rssi, now, [rssi]));
        tracking := tracking[key := Record(rssi, now, [rssi])];
        return;
      }
      var record := tracking[key];
      var delta := rssi - record.rssi;
      PushTracks(config, key, record, rssi, now);
      Store(config, tracking, key, Record(rssi, now, Push(record.history, rssi)));
      tracking := tracking[key := Record(rssi, now, Push(record.history, rssi))];
      if delta >= config.approachDelta && rssi > config.rssiThresholdAlert {
        events := events + [Alert(now, key, delta, rssi)];
      }
    }

    /** Restarts the Bluetooth sensor: its heartbeat starts over at `now`. */
    method StartBt(now: int)
      modifies this`btLastBeat
      ensures btLastBeat == now
    {
      btLastBeat := now;
    }

    /** Restarts the Wi-Fi sensor: its heartbeat starts over at `now`. */
    method StartWifi(now: int)
      modifies this`wifiLastBeat
      ensures wifiLastBeat == now
    {
      wifiLastBeat := now;
    }

    /**
     * One pass of the watchdog loop: restarts each sensor whose heartbeat is
     * stale and says which it restarted. A restarted sensor's heartbeat is
     * `now`, so with a non-negative timeout a second poll at the same time
     * restarts nothing.
     */
    method Poll(now: int) returns (restartBt: bool, restartWifi: bool)
      modifies this`btLastBeat, this`wifiLastBeat
      ensures restartBt <==> BtStale(now, old(btLastBeat), config.watchdogTimeout)
      ensures restartWifi <==> WifiStale(now, old(wifiLastBeat), config.watchdogTimeout)
      ensures btLastBeat == if restartBt then now else old(btLastBeat)
      ensures wifiLastBeat == if restartWifi then now else old(wifiLastBeat)
      ensures config.watchdogTimeout >= 0 ==>
        !BtStale(now, btLastBeat, config.watchdogTimeout) && !WifiStale(now, wifiLastBeat, config.watchdogTimeout)
    {
      var timeout := config.watchdogTimeout;
      restartBt := now - btLastBeat > timeout;
      if restartBt {
        StartBt(now);
      }
      restartWifi := now - wifiLastBeat > timeout * 3;
      if restartWifi {
        StartWifi(now);
      }
    }

    /** The consumer's `pop(0)`: the oldest pending alert, or `None` when the queue is empty. */
    method TakeEvent() returns (e: Option<Event>)
      modifies this`events
      ensures old(events) == [] ==> e == None && events == []
      ensures old(events) != [] ==> e == Some(old(events)[0]) && events == old(events)[1..]
    {
      if events == [] {
        return None;
      }
      e := Some(events[0]);
      events := events[1..];
    }
  }

  const Device := "AA:BB:CC:DD:EE:FF"

  /** The address of the scenarios below is already upper case. */
  lemma DeviceIsUpper()
    ensures Upper(Device) == Device
  {
    UpperFixes(Device);
  }

  /** A device rising from -70 to -60 dBm under the defaults raises exactly one alert, of +10 dB at -60 dBm. */
  method ApproachScenario() returns (events: seq<Event>)
    ensures events == [Alert(1, Device, 10, -60)]
  {
    var engine := new SentryWatchdog(DefaultConfig, 0);
    DeviceIsUpper();
    engine.ProcessSignal(Device, -70, "bt", 0);
    engine.ProcessSignal(Device, -60, "bt", 1);
    events := engine.events;
  }

  /** A rise of 1 dB (-70 then -69 dBm) is below the default delta of 5: no alert. */
  method DriftScenario() returns (events: seq<Event>)
    ensures events == []
  {
    var engine := new SentryWatchdog(DefaultConfig, 0);
    DeviceIsUpper();
    engine.ProcessSignal(Device, -70, "bt", 0);
    engine.ProcessSignal(Device, -69, "bt", 1);
    events := engine.events;
  }

  /** A whitelisted device gets neither a record nor an alert, whatever its readings. */
  method WhitelistScenario() returns (tracking: map<string, Record>, events: seq<Event>)
    ensures tracking == map[] && events == []
  {
    var config := DefaultConfig.(whitelist := map[Device := "phone"]);
    var engine := new SentryWatchdog(config, 0);
    DeviceIsUpper();
    engine.ProcessSignal(Device, -70, "bt", 0);
    engine.ProcessSignal(Device, -60, "wifi", 1);
    tracking, events := engine.tracking, engine.events;
  }

  /** Six readings of one device leave the last five in its history, in arrival order. */
  method HistoryScenario() returns (history: seq<int>)
    ensures history == [-79, -78, -77, -76, -75]
  {
    var engine := new SentryWatchdog(DefaultConfig, 0);
    DeviceIsUpper();
    engine.ProcessSignal(Device, -80, "wifi", 0);
    assert Readings(1) == [-80];
    var i := 1;
    while i < 6
      invariant 1 <= i <= 6
      invariant engine.Valid() && engine.config == DefaultConfig && Device in engine.tracking
      invariant engine.tracking[Device].history == Window(Readings(i))
    {
      PushKeepsWindow(Readings(i), -80 + i);
      engine.ProcessSignal(Device, -80 + i, "wifi", i);
      i := i + 1;
    }
    history := engine.tracking[Device].history;
    LastFiveReadings();
  }

  lemma LastFiveReadings()
    ensures Window(Readings(6)) == [-79, -78, -77, -76, -75]
  {
    assert Readings(6)[1..] == [-79, -78, -77, -76, -75];
  }

  /** The strengths -80, -79, ... of the first `n` readings of the history scenario. */
  function Readings(n: nat): (r: seq<int>)
    ensures |r| == n && forall k :: 0 <= k < n ==> r[k] == -80 + k
  {
    if n == 0 then [] else Readings(n - 1) + [-80 + (n - 1)]
  }

  /**
   * Alerts leave the queue in the order the engine raised them: -80, -70,
   * -60 dBm from one device raise two alerts, which the consumer takes oldest
   * first, and then the queue is empty.
   */
  method FifoScenario() returns (a: Option<Event>, b: Option<Event>, c: Option<Event>)
    ensures a == Some(Alert(1, Device, 10, -70))
    ensures b == Some(Alert(2, Device, 10, -60))
    ensures c == None
  {
    var engine := new SentryWatchdog(DefaultConfig, 0);
    DeviceIsUpper();
    engine.ProcessSignal(Device, -80, "bt", 0);
    engine.ProcessSignal(Device, -70, "bt", 1);
    engine.ProcessSignal(Device, -60, "wifi", 2);
    a := engine.TakeEvent();
    b := engine.TakeEvent();
    c := engine.TakeEvent();
  }
}
