/**
 Reading a configuration from its YAML record and writing it back. Fields left
 empty take defaults: the built-in ones for the whole configuration, the resolved
 ones of the configuration for each process.
 */
module YamlConfig {
  import opened Config
  import opened Text
  import opened Wrappers

  datatype YamlProcess = YamlProcess(
    name: string,
    command: string,
    restartPolicy: string,
    dependsOn: seq<string>,
    healthCheck: string,
    healthInterval: string,
    startRetries: int,
    startupTime: string,
    maxRestarts: string,
    restartDelay: string)

  datatype Yaml = Yaml(
    processes: seq<YamlProcess>,
    logFormat: string,
    logLevel: string,
    logDir: string,
    shutdownTimeout: string,
    restartDelay: string,
    startRetries: int,
    startupTime: string,
    maxRestarts: string,
    healthInterval: string,
    httpPort: int)

  /** Printing and parsing of durations, which the standard library provides. */
  datatype Codec = Codec(show: int -> string, parse: string -> Option<int>)

  predicate IsDuration(d: int) {
    MIN_INT <= d <= MAX_INT
  }

  /** Parsing undoes printing on 64-bit durations, yields nothing else, and refuses the empty string. */
  ghost predicate Faithful(k: Codec) {
    && (forall d | IsDuration(d) :: k.parse(k.show(d)) == Some(d))
    && (forall s | k.parse(s).Some? :: IsDuration(k.parse(s).value))
    && k.parse("").None?
  }

  /** The hypothesis can be met: plain nanosecond counts are such a codec. */
  lemma SomeCodecIsFaithful()
    ensures Faithful(Codec(Show, Atoi))
  {
    forall d ensures Atoi(Show(d)) == if IsDuration(d) then Some(d) else None {
      AtoiOfShow(d);
    }
  }

  // ---- the field parsers --------------------------------------------------------------

  function OneOf(values: set<string>, s: string): Option<string> {
    if Normalise(s) in values then Some(Normalise(s)) else None
  }

  function ParseMaxRestarts(s: string): Option<int> {
    var t := Normalise(s);
    if t == "infinite" || t == "unlimited" then Some(INFINITE)
    else
      match Atoi(t)
      case None => None
      case Some(v) => if v < 0 then None else Some(v)
  }

  function ShowMaxRestarts(n: int): string {
    if n == INFINITE then "infinite" else Show(n)
  }

  ghost function Positive(n: int, default: int): int {
    if n > 0 then n else default
  }

  // ---- reading ------------------------------------------------------------------------

  datatype FieldName =
    | Name | Command | RestartPolicy | LogFormat | LogLevel | ShutdownTimeout
    | RestartDelay | StartupTime | MaxRestarts | HealthInterval

  datatype YamlError = InvalidField(field: FieldName) | InvalidProcess(name: string, reason: FieldName)

  /** The order in which the fields of the whole configuration are looked at. */
  ghost function Rank(f: FieldName): nat {
    match f
    case LogFormat => 0 case LogLevel => 1 case ShutdownTimeout => 2 case RestartDelay => 3
    case StartupTime => 4 case MaxRestarts => 5 case HealthInterval => 6 case _ => 7
  }

  /** The order in which the fields of a process are looked at. */
  ghost function ProcessRank(f: FieldName): nat {
    match f
    case Name => 0 case Command => 1 case RestartPolicy => 2 case HealthInterval => 3
    case StartupTime => 4 case MaxRestarts => 5 case RestartDelay => 6 case _ => 7
  }

  /** The field of the whole configuration can be read. */
  ghost predicate Legible(k: Codec, y: Yaml, f: FieldName) {
    match f
    case LogFormat => y.logFormat == "" || OneOf(LOG_FORMATS, y.logFormat).Some?
    case LogLevel => y.logLevel == "" || OneOf(LOG_LEVELS, y.logLevel).Some?
    case ShutdownTimeout => y.shutdownTimeout == "" || k.parse(y.shutdownTimeout).Some?
    case RestartDelay => y.restartDelay == "" || k.parse(y.restartDelay).Some?
    case StartupTime => y.startupTime == "" || k.parse(y.startupTime).Some?
    case MaxRestarts => y.maxRestarts == "" || ParseMaxRestarts(y.maxRestarts).Some?
    case HealthInterval => y.healthInterval == "" || k.parse(y.healthInterval).Some?
    case _ => true
  }

  ghost predicate ProcessLegible(k: Codec, y: YamlProcess, f: FieldName) {
    match f
    case Name => y.name != ""
    case Command => y.command != ""
    case RestartPolicy => y.restartPolicy == "" || OneOf(POLICIES, y.restartPolicy).Some?
    case HealthInterval => y.healthInterval == "" || k.parse(y.healthInterval).Some?
    case StartupTime => y.startupTime == "" || k.parse(y.startupTime).Some?
    case MaxRestarts => y.maxRestarts == "" || ParseMaxRestarts(y.maxRestarts).Some?
    case RestartDelay => y.restartDelay == "" || k.parse(y.restartDelay).Some?
    case _ => true
  }

  ghost predicate AllLegible(k: Codec, y: Yaml) {
    forall f :: Legible(k, y, f)
  }

  ghost predicate AllProcessLegible(k: Codec, y: YamlProcess) {
    forall f :: ProcessLegible(k, y, f)
  }

  ghost function Get<T>(s: string, parsed: Option<T>, default: T): T {
    if s != "" && parsed.Some? then parsed.value else default
  }

  /** What a legible process record means under the resolved global settings. */
  ghost function ProcessMeaning(k: Codec, g: Config, y: YamlProcess): ProcessConfig {
    ProcessConfig(
      y.name,
      y.command,
      Get(y.restartPolicy, OneOf(POLICIES, y.restartPolicy), ALWAYS),
      y.dependsOn,
      y.healthCheck,
      Get(y.healthInterval, k.parse(y.healthInterval), g.healthInterval),
      Positive(y.startRetries, g.startRetries),
      Get(y.startupTime, k.parse(y.startupTime), g.startupTime),
      Get(y.maxRestarts, ParseMaxRestarts(y.maxRestarts), g.maxRestarts),
      Get(y.restartDelay, k.parse(y.restartDelay), g.restartDelay))
  }

  /** The global settings of a legible record, with no processes yet. */
  ghost function GlobalMeaning(k: Codec, y: Yaml): Config {
    Config(
      [],
      Get(y.logFormat, OneOf(LOG_FORMATS, y.logFormat), DEFAULTS.logFormat),
      Get(y.logLevel, OneOf(LOG_LEVELS, y.logLevel), DEFAULTS.logLevel),
      y.logDir,
      Get(y.shutdownTimeout, k.parse(y.shutdownTimeout), DEFAULTS.shutdownTimeout),
      Get(y.restartDelay, k.parse(y.restartDelay), DEFAULTS.restartDelay),
      Positive(y.startRetries, DEFAULTS.startRetries),
      Get(y.startupTime, k.parse(y.startupTime), DEFAULTS.startupTime),
      Get(y.maxRestarts, ParseMaxRestarts(y.maxRestarts), DEFAULTS.maxRestarts),
      Get(y.healthInterval, k.parse(y.healthInterval), DEFAULTS.healthInterval),
      Positive(y.httpPort, DEFAULTS.httpPort))
  }

  ghost function Meaning(k: Codec, y: Yaml): Config {
    var g := GlobalMeaning(k, y);
    g.(processes := seq(|y.processes|, i requires 0 <= i < |y.processes| => ProcessMeaning(k, g, y.processes[i])))
  }

  ghost predicate Readable(k: Codec, y: Yaml) {
    && AllLegible(k, y)
    && forall i | 0 <= i < |y.processes| :: AllProcessLegible(k, y.processes[i])
  }

  /** The illegible field that comes first. */
  ghost predicate FirstIllegible(k: Codec, y: Yaml, f: FieldName) {
    !Legible(k, y, f) && forall g | Rank(g) < Rank(f) :: Legible(k, y, g)
  }

  ghost predicate FirstProcessIllegible(k: Codec, y: YamlProcess, f: FieldName) {
    !ProcessLegible(k, y, f) && forall g | ProcessRank(g) < ProcessRank(f) :: ProcessLegible(k, y, g)
  }

  ghost predicate FirstError(k: Codec, y: Yaml, e: YamlError) {
    match e
    case InvalidField(f) => FirstIllegible(k, y, f)
    case InvalidProcess(n, f) =>
      && AllLegible(k, y)
      && exists i :: 0 <= i < |y.processes| && y.processes[i].name == n
                     && FirstProcessIllegible(k, y.processes[i], f)
                     && forall j | 0 <= j < i :: AllProcessLegible(k, y.processes[j])
  }

  /** A process setting left out is the global one; the policy left out is always. */
  ghost predicate Inherits(y: YamlProcess, global: Config, p: ProcessConfig) {
    && (y.restartPolicy == "" ==> p.restartPolicy == ALWAYS)
    && (y.healthInterval == "" ==> p.healthInterval == global.healthInterval)
    && (y.startRetries <= 0 ==> p.startRetries == global.startRetries)
    && (y.startupTime == "" ==> p.startupTime == global.startupTime)
    && (y.maxRestarts == "" ==> p.maxRestarts == global.maxRestarts)
    && (y.restartDelay == "" ==> p.restartDelay == global.restartDelay)
  }

  /** A process setting given is the one that was given. */
  ghost predicate Overrides(k: Codec, y: YamlProcess, p: ProcessConfig) {
    && p.name == y.name && p.command == y.command && p.dependsOn == y.dependsOn && p.healthCheck == y.healthCheck
    && (y.restartPolicy != "" ==> OneOf(POLICIES, y.restartPolicy) == Some(p.restartPolicy))
    && (y.healthInterval != "" ==> k.parse(y.healthInterval) == Some(p.healthInterval))
    && (y.startRetries > 0 ==> p.startRetries == y.startRetries)
    && (y.startupTime != "" ==> k.parse(y.startupTime) == Some(p.startupTime))
    && (y.maxRestarts != "" ==> ParseMaxRestarts(y.maxRestarts) == Some(p.maxRestarts))
    && (y.restartDelay != "" ==> k.parse(y.restartDelay) == Some(p.restartDelay))
  }

  method ToProcessConfig(k: Codec, y: YamlProcess, global: Config) returns (r: Result<ProcessConfig, FieldName>)
    ensures r.Success? ==> AllProcessLegible(k, y) && r.value == ProcessMeaning(k, global, y)
    ensures r.Success? ==> Inherits(y, global, r.value) && Overrides(k, y, r.value)
    ensures r.Failure? ==> FirstProcessIllegible(k, y, r.error)
  {
    if y.name == "" {
      return Failure(Name);
    }
    if y.command == "" {
      return Failure(Command);
    }
    var restartPolicy := ALWAYS;
    var healthInterval, startRetries := global.healthInterval, global.startRetries;
    var startupTime, maxRestarts, restartDelay := global.startupTime, global.maxRestarts, global.restartDelay;
    if y.restartPolicy != "" {
      var v := OneOf(POLICIES, y.restartPolicy);
      if v.None? {
        return Failure(RestartPolicy);
      }
      restartPolicy := v.value;
    }
    if y.healthInterval != "" {
      var v := k.parse(y.healthInterval);
      if v.None? {
        return Failure(HealthInterval);
      }
      healthInterval := v.value;
    }
    if y.startRetries > 0 {
      startRetries := y.startRetries;
    }
    if y.startupTime != "" {
      var v := k.parse(y.startupTime);
      if v.None? {
        return Failure(StartupTime);
      }
      startupTime := v.value;
    }
    if y.maxRestarts != "" {
      var v := ParseMaxRestarts(y.maxRestarts);
      if v.None? {
        return Failure(MaxRestarts);
      }
      maxRestarts := v.value;
    }
    if y.restartDelay != "" {
      var v := k.parse(y.restartDelay);
      if v.None? {
        return Failure(RestartDelay);
      }
      restartDelay := v.value;
    }
    r := Success(ProcessConfig(y.name, y.command, restartPolicy, y.dependsOn, y.healthCheck, healthInterval,
                               startRetries, startupTime, maxRestarts, restartDelay));
  }

  lemma LegibleFields(k: Codec, y: Yaml)
    requires Legible(k, y, LogFormat) && Legible(k, y, LogLevel) && Legible(k, y, ShutdownTimeout)
    requires Legible(k, y, RestartDelay) && Legible(k, y, StartupTime)
    requires Legible(k, y, MaxRestarts) && Legible(k, y, HealthInterval)
    ensures AllLegible(k, y)
  {
  }

  method ReadLogging(k: Codec, y: Yaml) returns (r: Result<(string, string), FieldName>)
    ensures r.Success? ==> Legible(k, y, LogFormat) && Legible(k, y, LogLevel)
    ensures r.Success? ==> r.value == (GlobalMeaning(k, y).logFormat, GlobalMeaning(k, y).logLevel)
    ensures r.Failure? ==> r.error in {LogFormat, LogLevel} && FirstIllegible(k, y, r.error)
  {
    ghost var g := GlobalMeaning(k, y);
    var logFormat, logLevel := DEFAULTS.logFormat, DEFAULTS.logLevel;
    if y.logFormat != "" {
      var v := OneOf(LOG_FORMATS, y.logFormat);
      if v.None? {
        return Failure(LogFormat);
      }
      logFormat := v.value;
    }
    assert Legible(k, y, LogFormat) && logFormat == g.logFormat;
    if y.logLevel != "" {
      var v := OneOf(LOG_LEVELS, y.logLevel);
      if v.None? {
        return Failure(LogLevel);
      }
      logLevel := v.value;
    }
    assert Legible(k, y, LogLevel) && logLevel == g.logLevel;
    r := Success((logFormat, logLevel));
  }

  method ReadDelays(k: Codec, y: Yaml) returns (r: Result<(int, int), FieldName>)
    requires Legible(k, y, LogFormat) && Legible(k, y, LogLevel)
    ensures r.Success? ==> Legible(k, y, ShutdownTimeout) && Legible(k, y, RestartDelay)
    ensures r.Success? ==> r.value == (GlobalMeaning(k, y).shutdownTimeout, GlobalMeaning(k, y).restartDelay)
    ensures r.Failure? ==> r.error in {ShutdownTimeout, RestartDelay} && FirstIllegible(k, y, r.error)
  {
    var shutdownTimeout, restartDelay := DEFAULTS.shutdownTimeout, DEFAULTS.restartDelay;
    if y.shutdownTimeout != "" {
      var v := k.parse(y.shutdownTimeout);
      if v.None? {
        return Failure(ShutdownTimeout);
      }
      shutdownTimeout := v.value;
    }
    if y.restartDelay != "" {
      var v := k.parse(y.restartDelay);
      if v.None? {
        return Failure(RestartDelay);
      }
      restartDelay := v.value;
    }
    r := Success((shutdownTimeout, restartDelay));
  }

  /** The global part of reading a configuration. */
  method ToGlobalConfig(k: Codec, y: Yaml) returns (r: Result<Config, FieldName>)
    ensures r.Success? ==> AllLegible(k, y) && r.value == GlobalMeaning(k, y)
    ensures r.Failure? ==> FirstIllegible(k, y, r.error)
  {
    ghost var g := GlobalMeaning(k, y);
    var logDir := DEFAULTS.logDir;
    var startRetries, startupTime, maxRestarts := DEFAULTS.startRetries, DEFAULTS.startupTime, DEFAULTS.maxRestarts;
    var healthInterval, httpPort := DEFAULTS.healthInterval, DEFAULTS.httpPort;
    var logging := ReadLogging(k, y);
    if logging.Failure? {
      return Failure(logging.error);
    }
    var (logFormat, logLevel) := logging.value;
    if y.logDir != "" {
      logDir := y.logDir;
    }
    var delays := ReadDelays(k, y);
    if delays.Failure? {
      return Failure(delays.error);
    }
    var (shutdownTimeout, restartDelay) := delays.value;
    if y.startRetries > 0 {
      startRetries := y.startRetries;
    }
    if y.startupTime != "" {
      var v := k.parse(y.startupTime);
      if v.None? {
        return Failure(StartupTime);
      }
      startupTime := v.value;
    }
    assert Legible(k, y, StartupTime) && startupTime == g.startupTime;
    if y.maxRestarts != "" {
      var v := ParseMaxRestarts(y.maxRestarts);
      if v.None? {
        return Failure(MaxRestarts);
      }
      maxRestarts := v.value;
    }
    assert Legible(k, y, MaxRestarts) && maxRestarts == g.maxRestarts;
    if y.healthInterval != "" {
      var v := k.parse(y.healthInterval);
      if v.None? {
        return Failure(HealthInterval);
      }
      healthInterval := v.value;
    }
    assert Legible(k, y, HealthInterval) && healthInterval == g.healthInterval;
    if y.httpPort > 0 {
      httpPort := y.httpPort;
    }
    LegibleFields(k, y);
    r := Success(Config([], logFormat, logLevel, logDir, shutdownTimeout, restartDelay, startRetries, startupTime,
                        maxRestarts, healthInterval, httpPort));
  }

  method ToConfig(k: Codec, y: Yaml) returns (r: Result<Config, YamlError>)
    ensures r.Success? <==> Readable(k, y)
    ensures r.Success? ==> r.value == Meaning(k, y)
    ensures r.Success? ==> |r.value.processes| == |y.processes|
    ensures r.Success? ==> forall i | 0 <= i < |y.processes| :: Inherits(y.processes[i], r.value, r.value.processes[i])
    ensures r.Failure? ==> FirstError(k, y, r.error)
  {
    var global := ToGlobalConfig(k, y);
    if global.Failure? {
      return Failure(InvalidField(global.error));
    }
    var config := global.value;
    for i := 0 to |y.processes|
      invariant config == GlobalMeaning(k, y).(processes := config.processes)
      invariant |config.processes| == i
      invariant forall j | 0 <= j < i ::
        && AllProcessLegible(k, y.processes[j]) && config.processes[j] == ProcessMeaning(k, GlobalMeaning(k, y), y.processes[j])
        && Inherits(y.processes[j], config, config.processes[j])
    {
      var p := ToProcessConfig(k, y.processes[i], config);
      if p.Failure? {
        return Failure(InvalidProcess(y.processes[i].name, p.error));
      }
      config := config.(processes := config.processes + [p.value]);
    }
    assert config == Meaning(k, y);
    r := Success(config);
  }

  // ---- writing -------------------------------------------------------------------------

  ghost function ProcessWritten(k: Codec, p: ProcessConfig): YamlProcess {
    YamlProcess(p.name, p.command, p.restartPolicy, p.dependsOn, p.healthCheck, k.show(p.healthInterval),
                p.startRetries, k.show(p.startupTime), ShowMaxRestarts(p.maxRestarts), k.show(p.restartDelay))
  }

  ghost function Written(k: Codec, c: Config): Yaml {
    Yaml(seq(|c.processes|, i requires 0 <= i < |c.processes| => ProcessWritten(k, c.processes[i])),
         c.logFormat, c.logLevel, c.logDir, k.show(c.shutdownTimeout), k.show(c.restartDelay), c.startRetries,
         k.show(c.startupTime), ShowMaxRestarts(c.maxRestarts), k.show(c.healthInterval), c.httpPort)
  }

  method FromConfig(k: Codec, c: Config) returns (y: Yaml)
    ensures y == Written(k, c)
  {
    y := Yaml([], c.logFormat, c.logLevel, c.logDir, k.show(c.shutdownTimeout), k.show(c.restartDelay), c.startRetries,
              k.show(c.startupTime), "", k.show(c.healthInterval), c.httpPort);
    if c.maxRestarts == INFINITE {
      y := y.(maxRestarts := "infinite");
    } else {
      y := y.(maxRestarts := Show(c.maxRestarts));
    }
    ghost var frame := y;
    for i := 0 to |c.processes|
      invariant y == frame.(processes := y.processes) && |y.processes| == i
      invariant forall j | 0 <= j < i :: y.processes[j] == ProcessWritten(k, c.processes[j])
    {
      var p := c.processes[i];
      var q := YamlProcess(p.name, p.command, p.restartPolicy, p.dependsOn, p.healthCheck, k.show(p.healthInterval),
                           p.startRetries, k.show(p.startupTime), "", k.show(p.restartDelay));
      if p.maxRestarts == INFINITE {
        q := q.(maxRestarts := "infinite");
      } else {
        q := q.(maxRestarts := Show(p.maxRestarts));
      }
      y := y.(processes := y.processes + [q]);
    }
    assert y.processes == Written(k, c).processes;
  }

  // ---- the round trip ----------------------------------------------------------------------

  predicate MaxRestartsOk(n: int) {
    INFINITE <= n <= MAX_INT
  }

  /** The process settings that survive being written and read. */
  predicate ProcessRepresentable(p: ProcessConfig) {
    && p.name != "" && p.command != ""
    && p.restartPolicy in POLICIES
    && IsDuration(p.healthInterval) && IsDuration(p.startupTime) && IsDuration(p.restartDelay)
    && p.startRetries > 0
    && MaxRestartsOk(p.maxRestarts)
  }

  /** The global settings that survive. */
  predicate GlobalRepresentable(c: Config) {
    && c.logFormat in LOG_FORMATS && c.logLevel in LOG_LEVELS
    && IsDuration(c.shutdownTimeout) && IsDuration(c.restartDelay)
    && IsDuration(c.startupTime) && IsDuration(c.healthInterval)
    && c.startRetries > 0
    && MaxRestartsOk(c.maxRestarts)
    && c.httpPort >= 0
  }

  predicate Representable(c: Config) {
    && GlobalRepresentable(c)
    && forall i | 0 <= i < |c.processes| :: ProcessRepresentable(c.processes[i])
  }

  ghost predicate ReadsAs(k: Codec, y: Yaml, c: Config) {
    Readable(k, y) && Meaning(k, y) == c
  }

  lemma PoliciesArePlain()
    ensures forall s | s in POLICIES :: s != "" && Plain(s)
  {
  }

  lemma LogWordsArePlain()
    ensures forall s | s in LOG_FORMATS + LOG_LEVELS :: s != "" && Plain(s)
  {
  }

  lemma InfiniteWordsArePlain()
    ensures Plain("infinite") && Plain("unlimited")
  {
  }

  lemma WordsArePlain(values: set<string>)
    requires values in {POLICIES, LOG_FORMATS, LOG_LEVELS, {"infinite", "unlimited"}}
    ensures forall s | s in values :: s != "" && Plain(s)
  {
    if values == POLICIES {
      PoliciesArePlain();
    } else if values == {"infinite", "unlimited"} {
      InfiniteWordsArePlain();
    } else {
      LogWordsArePlain();
    }
  }

  lemma PlainWords(values: set<string>)
    requires values in {POLICIES, LOG_FORMATS, LOG_LEVELS, {"infinite", "unlimited"}}
    ensures forall s | s in values :: s != "" && Normalise(s) == s
  {
    WordsArePlain(values);
    forall s | s in values ensures Normalise(s) == s {
      PlainIsNormal(s);
    }
  }

  /** A word is read back as itself exactly when it is one of the accepted ones. */
  lemma WordRoundTrip(values: set<string>, s: string, default: string)
    requires values in {POLICIES, LOG_FORMATS, LOG_LEVELS} && default in values
    ensures s in values ==> s != "" && OneOf(values, s) == Some(s)
    ensures (s == "" || OneOf(values, s).Some?) && Get(s, OneOf(values, s), default) == s ==> s in values
  {
    PlainWords(values);
  }

  lemma NumbersAreNotWords(n: int)
    ensures Show(n) != "infinite" && Show(n) != "unlimited"
  {
    var s := Show(n);
    assert n >= 0 ==> s[0] in s;
    assert "infinite"[0] == 'i' && "unlimited"[0] == 'u';
  }

  lemma MaxRestartsRoundTrip(n: int)
    ensures ShowMaxRestarts(n) != ""
    ensures ParseMaxRestarts(ShowMaxRestarts(n)) == if MaxRestartsOk(n) then Some(n) else None
  {
    PlainWords({"infinite", "unlimited"});
    if n != INFINITE {
      ShowIsPlain(n);
      PlainIsNormal(Show(n));
      NumbersAreNotWords(n);
      AtoiOfShow(n);
    }
  }

  lemma DurationRoundTrip(k: Codec, d: int, default: int)
    requires Faithful(k) && IsDuration(default)
    ensures IsDuration(d) ==> k.show(d) != "" && k.parse(k.show(d)) == Some(d)
    ensures (k.show(d) == "" || k.parse(k.show(d)).Some?) && Get(k.show(d), k.parse(k.show(d)), default) == d ==> IsDuration(d)
  {
  }

  lemma ProcessRoundTrip(k: Codec, g: Config, p: ProcessConfig)
    requires Faithful(k) && g.startRetries > 0
    requires IsDuration(g.healthInterval) && IsDuration(g.startupTime) && IsDuration(g.restartDelay)
    ensures AllProcessLegible(k, ProcessWritten(k, p)) && ProcessMeaning(k, g, ProcessWritten(k, p)) == p <==>
      ProcessRepresentable(p)
  {
    var y := ProcessWritten(k, p);
    WordRoundTrip(POLICIES, p.restartPolicy, ALWAYS);
    MaxRestartsRoundTrip(p.maxRestarts);
    DurationRoundTrip(k, p.healthInterval, g.healthInterval);
    DurationRoundTrip(k, p.startupTime, g.startupTime);
    DurationRoundTrip(k, p.restartDelay, g.restartDelay);
    if AllProcessLegible(k, y) {
      assert ProcessLegible(k, y, Name) && ProcessLegible(k, y, Command) && ProcessLegible(k, y, RestartPolicy);
      assert ProcessLegible(k, y, HealthInterval) && ProcessLegible(k, y, StartupTime);
      assert ProcessLegible(k, y, MaxRestarts) && ProcessLegible(k, y, RestartDelay);
    }
  }

  lemma GlobalRoundTrip(k: Codec, c: Config)
    requires Faithful(k)
    ensures AllLegible(k, Written(k, c)) && GlobalMeaning(k, Written(k, c)) == c.(processes := []) <==>
      GlobalRepresentable(c)
  {
    var y := Written(k, c);
    WordRoundTrip(LOG_FORMATS, c.logFormat, DEFAULTS.logFormat);
    WordRoundTrip(LOG_LEVELS, c.logLevel, DEFAULTS.logLevel);
    MaxRestartsRoundTrip(c.maxRestarts);
    DurationRoundTrip(k, c.shutdownTimeout, DEFAULTS.shutdownTimeout);
    DurationRoundTrip(k, c.restartDelay, DEFAULTS.restartDelay);
    DurationRoundTrip(k, c.startupTime, DEFAULTS.startupTime);
    DurationRoundTrip(k, c.healthInterval, DEFAULTS.healthInterval);
    if AllLegible(k, y) {
      assert Legible(k, y, LogFormat) && Legible(k, y, LogLevel) && Legible(k, y, ShutdownTimeout);
      assert Legible(k, y, RestartDelay) && Legible(k, y, StartupTime);
      assert Legible(k, y, MaxRestarts) && Legible(k, y, HealthInterval);
    }
  }

  /** Written and read back, a configuration is unchanged exactly when it is representable. */
  lemma RoundTrip(k: Codec, c: Config)
    requires Faithful(k)
    ensures ReadsAs(k, Written(k, c), c) <==> Representable(c)
  {
    var y := Written(k, c);
    var g := GlobalMeaning(k, y);
    GlobalRoundTrip(k, c);
    if GlobalRepresentable(c) && AllLegible(k, y) {
      forall i | 0 <= i < |c.processes|
        ensures AllProcessLegible(k, y.processes[i]) && ProcessMeaning(k, g, y.processes[i]) == c.processes[i] <==>
          ProcessRepresentable(c.processes[i])
      {
        ProcessRoundTrip(k, g, c.processes[i]);
      }
    }
    if ReadsAs(k, y, c) {
      assert g == Meaning(k, y).(processes := []);
      forall i | 0 <= i < |c.processes| ensures ProcessRepresentable(c.processes[i]) {
        assert Meaning(k, y).processes[i] == ProcessMeaning(k, g, y.processes[i]);
      }
    }
    if Representable(c) {
      assert GlobalRepresentable(c);
      assert Meaning(k, y).processes == c.processes;
    }
  }

  lemma GlobalsReadable(k: Codec, y: Yaml)
    requires Faithful(k) && AllLegible(k, y)
    ensures GlobalRepresentable(GlobalMeaning(k, y))
  {
    assert Legible(k, y, LogFormat) && Legible(k, y, LogLevel) && Legible(k, y, ShutdownTimeout);
    assert Legible(k, y, RestartDelay) && Legible(k, y, StartupTime);
    assert Legible(k, y, MaxRestarts) && Legible(k, y, HealthInterval);
    MaxRestartsReadable(y.maxRestarts);
  }

  lemma MaxRestartsReadable(s: string)
    ensures ParseMaxRestarts(s).Some? ==> MaxRestartsOk(ParseMaxRestarts(s).value)
  {
  }

  lemma ProcessReadable(k: Codec, g: Config, y: YamlProcess)
    requires Faithful(k) && AllProcessLegible(k, y) && GlobalRepresentable(g)
    ensures ProcessRepresentable(ProcessMeaning(k, g, y))
  {
    assert ProcessLegible(k, y, Name) && ProcessLegible(k, y, Command) && ProcessLegible(k, y, RestartPolicy);
    assert ProcessLegible(k, y, HealthInterval) && ProcessLegible(k, y, StartupTime);
    assert ProcessLegible(k, y, MaxRestarts) && ProcessLegible(k, y, RestartDelay);
    MaxRestartsReadable(y.maxRestarts);
  }

  /**
   Whatever a YAML record means, writing that configuration and reading it again
   gives exactly the same configuration, inherited settings included.
   */
  lemma ReadConfigRoundTrips(k: Codec, y: Yaml, c: Config)
    requires Faithful(k) && ReadsAs(k, y, c)
    ensures ReadsAs(k, Written(k, c), c)
  {
    var g := GlobalMeaning(k, y);
    GlobalsReadable(k, y);
    forall i | 0 <= i < |c.processes| ensures ProcessRepresentable(c.processes[i]) {
      assert Meaning(k, y).processes[i] == ProcessMeaning(k, g, y.processes[i]);
      ProcessReadable(k, g, y.processes[i]);
    }
    RoundTrip(k, c);
  }

  /** The case that a caller can run into: zero start retries come back as the built-in number. */
  lemma ZeroRetriesLost(k: Codec, c: Config)
    requires Faithful(k) && Representable(c)
    ensures ReadsAs(k, Written(k, c.(startRetries := 0)), c.(startRetries := DEFAULTS.startRetries))
    ensures !ReadsAs(k, Written(k, c.(startRetries := 0)), c.(startRetries := 0))
  {
    var kept := c.(startRetries := DEFAULTS.startRetries);
    var y, z := Written(k, c.(startRetries := 0)), Written(k, kept);
    RoundTrip(k, kept);
    RoundTrip(k, c.(startRetries := 0));
    assert y == z.(startRetries := 0);
    assert GlobalMeaning(k, y) == GlobalMeaning(k, z);
    assert forall f :: Legible(k, y, f) == Legible(k, z, f);
    assert Meaning(k, y).processes == Meaning(k, z).processes;
  }

  // ---- what is left out ----------------------------------------------------------------------

  ghost function Fill(s: string, filling: string): string {
    if s == "" then filling else s
  }

  /** The process record with every setting left out written in, as it is resolved globally. */
  ghost function FilledProcess(k: Codec, g: Config, y: YamlProcess): YamlProcess {
    y.(restartPolicy := Fill(y.restartPolicy, ALWAYS),
       healthInterval := Fill(y.healthInterval, k.show(g.healthInterval)),
       startRetries := if y.startRetries > 0 then y.startRetries else g.startRetries,
       startupTime := Fill(y.startupTime, k.show(g.startupTime)),
       maxRestarts := Fill(y.maxRestarts, ShowMaxRestarts(g.maxRestarts)),
       restartDelay := Fill(y.restartDelay, k.show(g.restartDelay)))
  }

  ghost function Filled(k: Codec, y: Yaml): Yaml {
    y.(processes := seq(|y.processes|, i requires 0 <= i < |y.processes| => FilledProcess(k, GlobalMeaning(k, y), y.processes[i])))
  }

  lemma FilledProcessMeansTheSame(k: Codec, g: Config, y: YamlProcess)
    requires Faithful(k) && GlobalRepresentable(g) && AllProcessLegible(k, y)
    ensures AllProcessLegible(k, FilledProcess(k, g, y))
    ensures ProcessMeaning(k, g, FilledProcess(k, g, y)) == ProcessMeaning(k, g, y)
  {
    WordRoundTrip(POLICIES, ALWAYS, ALWAYS);
    MaxRestartsRoundTrip(g.maxRestarts);
    DurationRoundTrip(k, g.healthInterval, 0);
    DurationRoundTrip(k, g.startupTime, 0);
    DurationRoundTrip(k, g.restartDelay, 0);
    forall f ensures ProcessLegible(k, FilledProcess(k, g, y), f) {
      assert ProcessLegible(k, y, f);
    }
  }

  /** Inheritance: leaving a setting out of a process means the same as writing in the resolved global one. */
  lemma InheritanceIsFillingIn(k: Codec, y: Yaml)
    requires Faithful(k) && Readable(k, y)
    ensures Readable(k, Filled(k, y)) && Meaning(k, Filled(k, y)) == Meaning(k, y)
  {
    var g, z := GlobalMeaning(k, y), Filled(k, y);
    GlobalsReadable(k, y);
    assert forall f :: Legible(k, z, f) == Legible(k, y, f);
    assert GlobalMeaning(k, z) == g;
    forall i | 0 <= i < |y.processes|
      ensures AllProcessLegible(k, z.processes[i]) && ProcessMeaning(k, g, z.processes[i]) == ProcessMeaning(k, g, y.processes[i])
    {
      FilledProcessMeansTheSame(k, g, y.processes[i]);
    }
    assert Meaning(k, z).processes == Meaning(k, y).processes;
  }

  const EMPTY := Yaml([], "", "", "", "", "", 0, "", "", "", 0)

  /** The defaults, in nanoseconds: ten seconds to shut down, one between restarts, sixty to start up, thirty between checks. */
  lemma EmptyRecord(k: Codec)
    ensures Readable(k, EMPTY)
    ensures Meaning(k, EMPTY) ==
      Config([], "text", "info", "", 10_000_000_000, 1_000_000_000, 3, 60_000_000_000, -1, 30_000_000_000, 0)
  {
  }

  /** Each global setting by itself is the default if left out, whatever the others are. */
  lemma GlobalDefaults(k: Codec, y: Yaml)
    ensures var (g, d) := (GlobalMeaning(k, y), GlobalMeaning(k, EMPTY));
      && (y.logFormat == "" ==> g.logFormat == d.logFormat)
      && (y.logLevel == "" ==> g.logLevel == d.logLevel)
      && (y.logDir == "" ==> g.logDir == d.logDir)
      && (y.shutdownTimeout == "" ==> g.shutdownTimeout == d.shutdownTimeout)
      && (y.restartDelay == "" ==> g.restartDelay == d.restartDelay)
      && (y.startRetries <= 0 ==> g.startRetries == d.startRetries)
      && (y.startupTime == "" ==> g.startupTime == d.startupTime)
      && (y.maxRestarts == "" ==> g.maxRestarts == d.maxRestarts)
      && (y.healthInterval == "" ==> g.healthInterval == d.healthInterval)
      && (y.httpPort <= 0 ==> g.httpPort == d.httpPort)
  {
  }

  /** Accepted words are read in any spelling, with any white space around them. */
  lemma WordsInAnySpelling(values: set<string>, left: string, t: string, right: string, word: string)
    requires values in {POLICIES, LOG_FORMATS, LOG_LEVELS} && word in values
    requires Blank(left) && Blank(right) && Spells(t, word)
    ensures OneOf(values, left + t + right) == Some(word)
  {
    WordsArePlain(values);
    NormaliseForgives(left, t, right, word);
  }

  lemma InfiniteInAnySpelling(left: string, t: string, right: string)
    requires Blank(left) && Blank(right) && (Spells(t, "infinite") || Spells(t, "unlimited"))
    ensures ParseMaxRestarts(left + t + right) == Some(INFINITE)
  {
    var word := if Spells(t, "infinite") then "infinite" else "unlimited";
    WordsArePlain({"infinite", "unlimited"});
    NormaliseForgives(left, t, right, word);
  }

  /** Any other legible number of restarts is a number that is not negative. */
  lemma NumbersOfRestarts(left: string, n: int, right: string)
    requires Blank(left) && Blank(right)
    ensures ParseMaxRestarts(left + Show(n) + right) == if 0 <= n <= MAX_INT then Some(n) else None
  {
    ShowIsPlain(n);
    NormaliseForgives(left, Show(n), right, Show(n));
    NumbersAreNotWords(n);
    AtoiOfShow(n);
  }
}
