/** The configuration records, and the dependency graphs read off them. */
module Config {
  import opened DependencyGraph

  const ALWAYS := "always"
  const ON_FAILURE := "on-failure"
  const NEVER := "never"

  const JSON := "json"
  const TEXT := "text"

  const DEBUG := "debug"
  const INFO := "info"
  const WARN := "warn"
  const ERROR := "error"

  const INFINITE := -1
  const SECOND := 1_000_000_000

  /** Durations are nanosecond counts, as in Go. */
  datatype ProcessConfig = ProcessConfig(
    name: string,
    command: string,
    restartPolicy: string,
    dependsOn: seq<string>,
    healthCheck: string,
    healthInterval: int,
    startRetries: int,
    startupTime: int,
    maxRestarts: int,
    restartDelay: int)

  datatype Config = Config(
    processes: seq<ProcessConfig>,
    logFormat: string,
    logLevel: string,
    logDir: string,
    shutdownTimeout: int,
    restartDelay: int,
    startRetries: int,
    startupTime: int,
    maxRestarts: int,
    healthInterval: int,
    httpPort: int)

  const DEFAULTS := Config([], TEXT, INFO, "", 10 * SECOND, 1 * SECOND, 3, 60 * SECOND, INFINITE, 30 * SECOND, 0)

  const POLICIES := {ALWAYS, ON_FAILURE, NEVER}
  const LOG_FORMATS := {JSON, TEXT}
  const LOG_LEVELS := {DEBUG, INFO, WARN, ERROR}

  ghost function NameList(ps: seq<ProcessConfig>): (names: seq<string>)
    ensures |names| == |ps|
  {
    seq(|ps|, i requires 0 <= i < |ps| => ps[i].name)
  }

  ghost function Names(ps: seq<ProcessConfig>): set<string> {
    Elements(NameList(ps))
  }

  ghost predicate DistinctNames(ps: seq<ProcessConfig>) {
    Distinct(NameList(ps))
  }

  ghost predicate DependenciesDefined(ps: seq<ProcessConfig>) {
    forall i, d | 0 <= i < |ps| && d in ps[i].dependsOn :: d in Names(ps)
  }

  /** Some process called `dependent` lists `dep`. */
  ghost predicate Lists(ps: seq<ProcessConfig>, dependent: string, dep: string) {
    exists i :: 0 <= i < |ps| && ps[i].name == dependent && dep in ps[i].dependsOn
  }

  ghost function AllDependencies(ps: seq<ProcessConfig>): set<string> {
    set i, d | 0 <= i < |ps| && d in ps[i].dependsOn :: d
  }

  /** Dependency arcs: (dependency, dependent). */
  ghost function DependencyArcs(ps: seq<ProcessConfig>): Arcs {
    set n, d | n in Names(ps) && d in AllDependencies(ps) && Lists(ps, n, d) :: (d, n)
  }

  lemma DependencyArcMember(ps: seq<ProcessConfig>, d: string, n: string)
    ensures (d, n) in DependencyArcs(ps) <==> Lists(ps, n, d)
    ensures Lists(ps, n, d) ==> n in Names(ps) && d in AllDependencies(ps)
  {
    if Lists(ps, n, d) {
      var i :| 0 <= i < |ps| && ps[i].name == n && d in ps[i].dependsOn;
      assert NameList(ps)[i] == n;
    }
  }

  lemma NameMember(ps: seq<ProcessConfig>, i: nat)
    requires i < |ps|
    ensures ps[i].name in Names(ps)
  {
    assert NameList(ps)[i] == ps[i].name;
  }

  lemma NameIndex(ps: seq<ProcessConfig>, n: string) returns (i: nat)
    requires n in Names(ps)
    ensures i < |ps| && ps[i].name == n
  {
    i :| 0 <= i < |ps| && NameList(ps)[i] == n;
  }
}
