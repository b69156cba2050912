/** The server's configuration tables, the handlers that write them, what a client's
    effective configuration is made of, and what the client does with it. */
module ServerConfig {
  import opened Observations
  import opened Fingerprint

  datatype DeviceRow = DeviceRow(id: int, registered: bool, selectedVersion: Option<int>)

  datatype DeviceConfigRow = DeviceConfigRow(
    idleThreshold: int, uploadInterval: int, pollInterval: int, locked: bool, lockMessage: string, warningSeconds: int)

  datatype Settings = Settings(
    idleThreshold: int, uploadInterval: int, pollInterval: int, maxGap: int, chartYMax: int, boardRefresh: int,
    debugMode: bool, debugUnassigned: bool, selectedVersion: int)

  datatype VersionRow = VersionRow(version: string, artifactName: string, sha256: string)

  /** Everything one device's configuration is read from, in the order it is read. */
  datatype Tables = Tables(
    device: DeviceRow,
    config: DeviceConfigRow,
    settings: Settings,
    categories: seq<Category>,
    versions: map<int, VersionRow>,
    warningSound: string
  )

  function SelectedVersion(device: DeviceRow, settings: Settings): int {
    if device.selectedVersion.Some? then device.selectedVersion.value else settings.selectedVersion
  }

  function Offered(t: Tables): VersionRow {
    var id := SelectedVersion(t.device, t.settings);
    if id > 0 && id in t.versions then t.versions[id] else VersionRow("", "", "")
  }

  /** The configuration of the device as assembled from one reading of every table. */
  function Effective(t: Tables): ClientConfig {
    ClientConfig(t.device.id, t.config.idleThreshold, t.config.uploadInterval, t.config.pollInterval,
                 t.settings.maxGap, t.settings.debugMode || (t.settings.debugUnassigned && !t.device.registered),
                 t.config.locked, t.config.lockMessage, t.config.warningSeconds, t.warningSound,
                 Offered(t).version, Offered(t).artifactName, Offered(t).sha256, t.categories)
  }

  /** What a client is told is what the tables say: the version is the one selected for the device, or
      the global one if none is, and none at all if that is no registered version. */
  ghost predicate Tells(b: Contents, t: Tables) {
    && b.idleThreshold == t.config.idleThreshold && b.uploadInterval == t.config.uploadInterval
    && b.pollInterval == t.config.pollInterval && b.maxGap == t.settings.maxGap
    && (b.debugMode <==> t.settings.debugMode || (t.settings.debugUnassigned && !t.device.registered))
    && b.locked == t.config.locked && b.lockMessage == t.config.lockMessage
    && b.warningSeconds == t.config.warningSeconds && b.warningSound == t.warningSound
    && TellsVersion(b, t)
    && |b.categories| == |t.categories|
    && forall i :: 0 <= i < |t.categories| ==>
         b.categories[i] == (t.categories[i].matchType, t.categories[i].pattern, t.categories[i].category)
  }

  ghost predicate TellsVersion(b: Contents, t: Tables) {
    && (t.device.selectedVersion.Some? ==> TellsVersionOf(b, t.versions, t.device.selectedVersion.value))
    && (t.device.selectedVersion.None? ==> TellsVersionOf(b, t.versions, t.settings.selectedVersion))
  }

  ghost predicate TellsVersionOf(b: Contents, versions: map<int, VersionRow>, id: int) {
    && (id > 0 && id in versions ==> b.desiredVersion == versions[id].version
                                     && b.artifactName == versions[id].artifactName && b.sha256 == versions[id].sha256)
    && (id <= 0 || id !in versions ==> b.desiredVersion == b.artifactName == b.sha256 == "")
  }

  lemma EffectiveTells(t: Tables)
    ensures Tells(ContentsOf(Effective(t)), t)
  {
    CategoryContentsAre(t.categories);
  }

  // ---- writing ----------------------------------------------------------------

  /** Intervals are positive, and an unlocked device has neither message nor warning. */
  ghost predicate ValidTables(t: Tables) {
    && t.config.idleThreshold > 0 && t.config.uploadInterval > 0 && t.config.pollInterval > 0
    && ValidSettings(t.settings)
    && (!t.config.locked ==> t.config.lockMessage == "" && t.config.warningSeconds == 0)
  }

  predicate ValidSettings(s: Settings) {
    s.idleThreshold > 0 && s.uploadInterval > 0 && s.pollInterval > 0 && s.maxGap > 0 && s.chartYMax > 0
    && s.boardRefresh > 0
  }

  const MAX_WARNING_SECONDS: int := 600

  function ClampWarning(parsed: Option<int>): int {
    if parsed.None? || parsed.value < 0 then 0
    else if parsed.value > MAX_WARNING_SECONDS then MAX_WARNING_SECONDS
    else parsed.value
  }

  function LockTo(c: DeviceConfigRow, locked: bool, message: string, warning: int): DeviceConfigRow {
    c.(locked := locked, lockMessage := message, warningSeconds := warning)
  }

  /** The tables, written by the handlers that notify afterwards. */
  class ConfigStore {
    var tables: Tables

    ghost predicate Valid() reads this { ValidTables(tables) }

    constructor (t: Tables)
      requires ValidTables(t)
      ensures Valid() && tables == t
    {
      tables := t;
    }

    method SetDeviceLock(locked: bool, message: string, warningSeconds: int)
      requires Valid()
      modifies this
      ensures Valid()
      ensures tables == old(tables).(config := old(tables).config.(locked := locked,
                          lockMessage := if locked then message else "",
                          warningSeconds := if locked then warningSeconds else 0))
    {
      var m, w := message, warningSeconds;
      if !locked {
        m, w := "", 0;
      }
      tables := tables.(config := LockTo(tables.config, locked, m, w));
    }

    /** The admin's lock or unlock command. */
    method DeviceCommand(lock: bool, message: string, warning: Option<int>)
      requires Valid()
      modifies this
      ensures Valid() && tables.config.locked == lock
      ensures tables == old(tables).(config := tables.config)
      ensures tables.config == old(tables).config.(locked := lock, lockMessage := tables.config.lockMessage,
                                 warningSeconds := tables.config.warningSeconds)
      ensures tables.config.lockMessage == if lock then message else ""
      ensures 0 <= tables.config.warningSeconds <= 600
      ensures lock && warning.Some? && 0 <= warning.value <= 600 ==> tables.config.warningSeconds == warning.value
      ensures lock && warning.Some? && warning.value > 600 ==> tables.config.warningSeconds == 600
      ensures !lock || warning.None? || warning.value < 0 ==> tables.config.warningSeconds == 0
    {
      SetDeviceLock(lock, if lock then message else "", if lock then ClampWarning(warning) else 0);
    }

    /** Returns how many of the devices in the tables were locked. */
    method LockAllLocks(message: string, warningSeconds: int) returns (affected: nat)
      requires Valid()
      modifies this
      ensures Valid() && affected == (if old(tables).device.registered then 1 else 0)
      ensures tables == if old(tables).device.registered
                        then old(tables).(config := old(tables).config.(locked := true, lockMessage := message,
                               warningSeconds := warningSeconds))
                        else old(tables)
    {
      affected := 0;
      if tables.device.registered {
        tables := tables.(config := LockTo(tables.config, true, message, warningSeconds));
        affected := 1;
      }
    }

    method UnlockAllLocks() returns (affected: nat)
      requires Valid()
      modifies this
      ensures Valid() && affected == (if old(tables).device.registered then 1 else 0)
      ensures tables == if old(tables).device.registered
                        then old(tables).(config := old(tables).config.(locked := false, lockMessage := "",
                               warningSeconds := 0))
                        else old(tables)
    {
      affected := 0;
      if tables.device.registered {
        tables := tables.(config := LockTo(tables.config, false, "", 0));
        affected := 1;
      }
    }

    /** The global intervals are copied into the device's row in the same transaction. */
    method UpdateSettings(s: Settings) returns (ok: bool)
      requires Valid()
      modifies this
      ensures Valid()
      ensures ok <==> s.idleThreshold > 0 && s.uploadInterval > 0 && s.pollInterval > 0 && s.maxGap > 0
                      && s.chartYMax > 0 && s.boardRefresh > 0
      ensures tables == if ok then old(tables).(settings := s,
                          config := old(tables).config.(idleThreshold := s.idleThreshold,
                            uploadInterval := s.uploadInterval, pollInterval := s.pollInterval))
                        else old(tables)
    {
      if s.idleThreshold <= 0 || s.uploadInterval <= 0 || s.pollInterval <= 0 || s.maxGap <= 0 || s.chartYMax <= 0
        || s.boardRefresh <= 0
      {
        return false;
      }
      tables := tables.(settings := s);
      tables := tables.(config := tables.config.(idleThreshold := s.idleThreshold,
                          uploadInterval := s.uploadInterval, pollInterval := s.pollInterval));
      return true;
    }
  }

  // ---- the client -------------------------------------------------------------

  /** The settings a client keeps that the server can change. */
  datatype ClientState = ClientState(
    idleThreshold: int, uploadInterval: int, pollInterval: int, observeInterval: int, maxGap: int, debugMode: bool,
    locked: bool, lockMessage: string, warningSeconds: int)

  /** A decoded response; fields the server leaves out are zero or none. */
  datatype Response = Response(
    idleThreshold: int, uploadInterval: int, pollInterval: int, observeInterval: int, maxGap: int,
    debugMode: Option<bool>, locked: Option<bool>, lockMessage: string, warningSeconds: int)

  /** What the client decodes of the contents it is sent. */
  function Decoded(b: Contents): Response {
    Response(b.idleThreshold, b.uploadInterval, b.pollInterval, 0, b.maxGap, Some(b.debugMode), Some(b.locked),
             b.lockMessage, b.warningSeconds)
  }

  function ResponseOf(c: ClientConfig): Response { Decoded(ContentsOf(c)) }

  function Positive(newValue: int, current: int): int {
    if newValue > 0 then newValue else current
  }

  function Applied(c: ClientState, r: Response): ClientState {
    ClientState(
      Positive(r.idleThreshold, c.idleThreshold), Positive(r.uploadInterval, c.uploadInterval),
      Positive(r.pollInterval, c.pollInterval), Positive(r.observeInterval, c.observeInterval),
      Positive(r.maxGap, c.maxGap),
      if r.debugMode.Some? then r.debugMode.value else c.debugMode,
      if r.locked.Some? then r.locked.value else c.locked,
      if r.locked.None? then c.lockMessage else if r.locked.value then r.lockMessage else "",
      if r.locked.None? then c.warningSeconds else if r.locked.value then r.warningSeconds else 0)
  }

  /** Field by field: a positive interval and whatever else the response carries is taken over, the message
      and the warning with a lock only, and the rest stays. */
  predicate TakesOver(c: ClientState, r: Response, a: ClientState) {
    && a.idleThreshold == (if r.idleThreshold > 0 then r.idleThreshold else c.idleThreshold)
    && a.uploadInterval == (if r.uploadInterval > 0 then r.uploadInterval else c.uploadInterval)
    && a.pollInterval == (if r.pollInterval > 0 then r.pollInterval else c.pollInterval)
    && a.observeInterval == (if r.observeInterval > 0 then r.observeInterval else c.observeInterval)
    && a.maxGap == (if r.maxGap > 0 then r.maxGap else c.maxGap)
    && (r.debugMode.None? ==> a.debugMode == c.debugMode)
    && (r.debugMode.Some? ==> a.debugMode == r.debugMode.value)
    && (r.locked.None? ==> a.locked == c.locked && a.lockMessage == c.lockMessage
                           && a.warningSeconds == c.warningSeconds)
    && (r.locked == Some(true) ==> a.locked && a.lockMessage == r.lockMessage
                                   && a.warningSeconds == r.warningSeconds)
    && (r.locked == Some(false) ==> !a.locked && a.lockMessage == "" && a.warningSeconds == 0)
  }

  lemma AppliedTakesOver(c: ClientState, r: Response)
    ensures TakesOver(c, r, Applied(c, r))
  {
  }

  /** The client's configuration file in memory. */
  class ClientConfigFile {
    var idleThreshold: int
    var uploadInterval: int
    var pollInterval: int
    var observeInterval: int
    var maxGap: int
    var debugMode: bool
    var locked: bool
    var lockMessage: string
    var warningSeconds: int

    ghost function State(): ClientState reads this {
      ClientState(idleThreshold, uploadInterval, pollInterval, observeInterval, maxGap, debugMode, locked, lockMessage,
                  warningSeconds)
    }

    constructor (s: ClientState)
      ensures State() == s
    {
      idleThreshold, uploadInterval, pollInterval := s.idleThreshold, s.uploadInterval, s.pollInterval;
      observeInterval, maxGap, debugMode := s.observeInterval, s.maxGap, s.debugMode;
      locked, lockMessage, warningSeconds := s.locked, s.lockMessage, s.warningSeconds;
    }

    /** Takes over what the response carries and reports whether anything changed. */
    method ApplyServerConfig(r: Response) returns (changed: bool)
      modifies this
      ensures State() == Applied(old(State()), r) && TakesOver(old(State()), r, State())
      ensures changed <==> State() != old(State())
    {
      hide TakesOver;
      AppliedTakesOver(State(), r);
      changed := ApplyIntervals(r);
      if r.debugMode.Some? && debugMode != r.debugMode.value {
        debugMode, changed := r.debugMode.value, true;
      }
      if r.locked.Some? {
        var lockChanged := ApplyLock(r.locked.value, r.lockMessage, r.warningSeconds);
        changed := changed || lockChanged;
      }
    }

    /** An interval the response leaves out, or that is not positive, keeps its value. */
    method ApplyIntervals(r: Response) returns (changed: bool)
      modifies this`idleThreshold, this`uploadInterval, this`pollInterval, this`observeInterval, this`maxGap
      ensures State() == Applied(old(State()), r.(debugMode := None, locked := None))
      ensures changed <==> State() != old(State())
    {
      changed := false;
      if r.idleThreshold > 0 && idleThreshold != r.idleThreshold {
        idleThreshold, changed := r.idleThreshold, true;
      }
      if r.uploadInterval > 0 && uploadInterval != r.uploadInterval {
        uploadInterval, changed := r.uploadInterval, true;
      }
      if r.pollInterval > 0 && pollInterval != r.pollInterval {
        pollInterval, changed := r.pollInterval, true;
      }
      if r.observeInterval > 0 && observeInterval != r.observeInterval {
        observeInterval, changed := r.observeInterval, true;
      }
      if r.maxGap > 0 && maxGap != r.maxGap {
        maxGap, changed := r.maxGap, true;
      }
    }

    /** The message and the warning follow the lock. */
    method ApplyLock(lock: bool, newMessage: string, newWarning: int) returns (changed: bool)
      modifies this`locked, this`lockMessage, this`warningSeconds
      ensures locked == lock
      ensures lockMessage == if lock then newMessage else ""
      ensures warningSeconds == if lock then newWarning else 0
      ensures changed <==> State() != old(State())
    {
      changed := false;
      if locked != lock {
        locked, changed := lock, true;
      }
      var message, warning := newMessage, newWarning;
      if !lock {
        message, warning := "", 0;
      }
      if lockMessage != message {
        lockMessage, changed := message, true;
      }
      if warningSeconds != warning {
        warningSeconds, changed := warning, true;
      }
    }
  }

  /** The client runs with what the server intends. */
  predicate InSync(c: ClientState, s: ClientConfig) {
    && c.idleThreshold == s.idleThreshold && c.uploadInterval == s.uploadInterval && c.pollInterval == s.pollInterval
    && c.maxGap == s.maxGap && c.debugMode == s.debugMode && c.locked == s.locked
    && c.lockMessage == s.lockMessage && c.warningSeconds == s.warningSeconds
  }

  /** Applying a configuration leaves the client in sync exactly when every interval is positive
      or already held, and an unlocked configuration carries no message and no warning. */
  lemma AppliedInSync(c: ClientState, s: ClientConfig)
    ensures InSync(Applied(c, ResponseOf(s)), s)
       <==> (&& (s.idleThreshold > 0 || c.idleThreshold == s.idleThreshold)
             && (s.uploadInterval > 0 || c.uploadInterval == s.uploadInterval)
             && (s.pollInterval > 0 || c.pollInterval == s.pollInterval)
             && (s.maxGap > 0 || c.maxGap == s.maxGap)
             && (s.locked || (s.lockMessage == "" && s.warningSeconds == 0)))
  {
  }

  /** Whatever the tables hold after valid writes, a client that applies it is in sync. */
  lemma ValidTablesSync(c: ClientState, t: Tables)
    requires ValidTables(t)
    ensures InSync(Applied(c, ResponseOf(Effective(t))), Effective(t))
  {
  }

  /** Being in sync depends only on what the fingerprint is made from. */
  lemma SyncFollowsFingerprint(c: ClientState, a: ClientConfig, b: ClientConfig, printable: char -> bool)
    requires FingerprintText(a, printable) == FingerprintText(b, printable)
    ensures InSync(c, a) == InSync(c, b)
  {
    FingerprintDeterminesBody("", a, b, printable);
  }
}
