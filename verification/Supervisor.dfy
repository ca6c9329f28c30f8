/**
 The supervision protocol. Each process record is guarded by a lock; many
 goroutines share it: callers of start and stop, one monitor and one start-up
 tracker per started child, and the goroutines that perform automatic restarts.
 The manager adds a wait group and a context that is cancelled at shutdown.

 A step of the transition system is one critical section, or one move of a
 goroutine outside any. Starting and stopping hold the lock over something that
 takes time (creating a child, waiting for one to exit), so each is split into
 two steps with the lock held in between: everything that does not need the
 lock can happen there. Child exits, exit codes, expiring timers and start
 failures are chosen freely. The only assumption is that a cancelled context
 prevents a child from being created.
 */
module Supervisor {
  import opened Config
  import opened Wrappers

  datatype State = Stopped | Starting | Running | Stopping | Failed

  /** The fields of a process that its lock guards. `cmd` names a child. */
  datatype Record = Record(
    state: State,
    cmd: Option<nat>,
    startupAttempts: int,
    runtimeRestarts: int,
    startupComplete: bool)

  const FRESH := Record(Stopped, None, 0, 0, false)

  /** How a child ended, as its waiter sees it: cleanly, with an exit code, or with some other error. */
  datatype Exit = Clean | ExitCode(code: int) | OtherError

  // ---- the critical sections, on the guarded fields ------------------------------

  function ShouldRestart(cfg: ProcessConfig, r: Record, exitCode: int): bool {
    if cfg.restartPolicy == NEVER then false
    else if !r.startupComplete then
      r.startupAttempts < cfg.startRetries
    else if cfg.maxRestarts == INFINITE then
      cfg.restartPolicy == ALWAYS || (cfg.restartPolicy == ON_FAILURE && exitCode != 0)
    else
      && r.runtimeRestarts < cfg.maxRestarts
      && (cfg.restartPolicy == ALWAYS || (cfg.restartPolicy == ON_FAILURE && exitCode != 0))
  }

  function CodeOf(e: Exit): int {
    if e.ExitCode? then e.code else 0
  }

  /** The record after a monitor has seen its child exit, and whether it will restart it. */
  function Decide(cfg: ProcessConfig, r: Record, e: Exit): (Record, bool) {
    if r.state == Stopping then (r.(state := Stopped), false)
    else
      var ended := r.(state := if e.Clean? then Stopped else Failed);
      if !ShouldRestart(cfg, ended, CodeOf(e)) then (ended, false)
      else if ended.startupComplete then (ended.(runtimeRestarts := ended.runtimeRestarts + 1), true)
      else (ended.(startupAttempts := ended.startupAttempts + 1), true)
  }

  function Started(r: Record, child: nat): Record {
    r.(cmd := Some(child), state := Running, startupComplete := false)
  }

  function Tracked(r: Record): Record {
    if r.state == Running then r.(startupComplete := true) else r
  }

  // ---- one process and its goroutines ---------------------------------------------

  /** Who holds the lock of a process between two steps. */
  datatype Lock = Free | HeldByStart(automatic: bool) | HeldByStop

  /**
   `alive` are the children still running, `born` the monitors that have not
   read their command yet, `waiting` those waiting for the given child,
   `sleeping` those that decided to restart, `restarters` the goroutines about
   to do so, `trackers` the start-up timers, each with the child it was begun for
   (which the source does not record), and `leaving` the goroutines that have only
   to sign off. `performed` and `completions` record the past: calls
   of start made by restart goroutines, and start-ups completed.
   */
  datatype Proc = Proc(
    rec: Record,
    lock: Lock,
    alive: set<nat>,
    nextChild: nat,
    born: nat,
    waiting: multiset<nat>,
    sleeping: nat,
    restarters: nat,
    trackers: multiset<nat>,
    leaving: nat,
    performed: nat,
    completions: nat)

  const IDLE := Proc(FRESH, Free, {}, 0, 0, multiset{}, 0, 0, multiset{}, 0, 0, 0)

  datatype Event =
    | StartCalled                        // a caller enters StartProcess
    | RestartCalled                      // a restart goroutine does
    | StartFailed
    | StartSucceeded
    | StopCalled
    | StopFinished
    | ChildExits(child: nat)
    | MonitorReads
    | MonitorDecides(child: nat, exit: Exit)
    | MonitorWakes
    | TrackerFires(child: nat)
    | TrackerCancelled(child: nat)
    | GoroutineLeaves

  predicate Enabled(p: Proc, cancelled: bool, e: Event) {
    match e
    case StartCalled => p.lock == Free
    case RestartCalled => p.lock == Free && p.restarters > 0
    case StartFailed => p.lock.HeldByStart?
    case StartSucceeded => p.lock.HeldByStart? && !cancelled
    case StopCalled => p.lock == Free
    case StopFinished => p.lock == HeldByStop && (p.rec.cmd.Some? ==> p.rec.cmd.value !in p.alive)
    case ChildExits(c) => c in p.alive
    case MonitorReads => p.lock == Free && p.born > 0
    case MonitorDecides(c, _) => p.lock == Free && c in p.waiting && c !in p.alive
    case MonitorWakes => p.sleeping > 0
    case TrackerFires(c) => p.lock == Free && c in p.trackers
    case TrackerCancelled(c) => c in p.trackers && cancelled
    case GoroutineLeaves => p.leaving > 0
  }

  function Next(cfg: ProcessConfig, p: Proc, e: Event): Proc
    requires Enabled(p, false, e) || Enabled(p, true, e)
  {
    match e
    case StartCalled =>
      if p.rec.state == Running then p
      else p.(lock := HeldByStart(false), rec := p.rec.(state := Starting))
    case RestartCalled =>
      var q := p.(restarters := p.restarters - 1, performed := p.performed + 1);
      if p.rec.state == Running then q.(leaving := q.leaving + 1)
      else q.(lock := HeldByStart(true), rec := q.rec.(state := Starting))
    case StartFailed =>
      p.(lock := Free, rec := p.rec.(state := State.Failed),
         leaving := p.leaving + (if p.lock.automatic then 1 else 0))
    case StartSucceeded =>
      p.(lock := Free, rec := Started(p.rec, p.nextChild),
         alive := p.alive + {p.nextChild}, nextChild := p.nextChild + 1,
         born := p.born + 1, trackers := p.trackers + multiset{p.nextChild},
         leaving := p.leaving + (if p.lock.automatic then 1 else 0))
    case StopCalled =>
      if p.rec.state != Running then p
      else p.(lock := HeldByStop, rec := p.rec.(state := Stopping))
    case StopFinished =>
      p.(lock := Free, rec := p.rec.(state := Stopped, cmd := None))
    case ChildExits(c) =>
      p.(alive := p.alive - {c})
    case MonitorReads =>
      if p.rec.cmd.None? then p.(born := p.born - 1, leaving := p.leaving + 1)
      else p.(born := p.born - 1, waiting := p.waiting + multiset{p.rec.cmd.value})
    case MonitorDecides(c, exit) =>
      var (r, restart) := Decide(cfg, p.rec, exit);
      var q := p.(rec := r, waiting := p.waiting - multiset{c});
      if restart then q.(sleeping := q.sleeping + 1) else q.(leaving := q.leaving + 1)
    case MonitorWakes =>
      p.(sleeping := p.sleeping - 1, restarters := p.restarters + 1, leaving := p.leaving + 1)
    case TrackerFires(c) =>
      p.(rec := Tracked(p.rec), trackers := p.trackers - multiset{c}, leaving := p.leaving + 1,
         completions := p.completions + (if p.rec.state == Running && !p.rec.startupComplete then 1 else 0))
    case TrackerCancelled(c) =>
      p.(trackers := p.trackers - multiset{c}, leaving := p.leaving + 1)
    case GoroutineLeaves =>
      p.(leaving := p.leaving - 1)
  }

  /** What the step adds to the wait group: `Add` on spawning, `Done` on leaving. */
  function WaitGroupChange(e: Event): int {
    match e
    case StartSucceeded => 2
    case MonitorWakes => 1
    case GoroutineLeaves => -1
    case _ => 0
  }

  // ---- the manager -----------------------------------------------------------------

  datatype Manager = Manager(procs: seq<Proc>, cancelled: bool, wg: int)

  datatype Step = Cancel | Do(i: nat, event: Event)

  function Initial(n: nat): Manager {
    Manager(seq(n, _ => IDLE), false, 0)
  }

  predicate Possible(m: Manager, s: Step) {
    s.Do? ==> s.i < |m.procs| && Enabled(m.procs[s.i], m.cancelled, s.event)
  }

  function Take(cfgs: seq<ProcessConfig>, m: Manager, s: Step): (m': Manager)
    requires |cfgs| == |m.procs| && Possible(m, s)
    ensures |m'.procs| == |m.procs|
  {
    match s
    case Cancel => m.(cancelled := true)
    case Do(i, e) =>
      assert Enabled(m.procs[i], m.cancelled, e);
      Manager(m.procs[i := Next(cfgs[i], m.procs[i], e)], m.cancelled, m.wg + WaitGroupChange(e))
  }

  /** The states of a run: `run[0]` is where it begins, and step `k` leads from `run[k]` to `run[k + 1]`. */
  ghost predicate IsRun(cfgs: seq<ProcessConfig>, run: seq<Manager>, steps: seq<Step>) {
    && |run| == |steps| + 1
    && (forall k | 0 <= k < |run| :: |run[k].procs| == |cfgs|)
    && forall k | 0 <= k < |steps| :: Possible(run[k], steps[k]) && run[k + 1] == Take(cfgs, run[k], steps[k])
  }

  /** A run of a freshly initialised manager. */
  ghost predicate IsExecution(cfgs: seq<ProcessConfig>, run: seq<Manager>, steps: seq<Step>) {
    IsRun(cfgs, run, steps) && run[0] == Initial(|cfgs|)
  }
}
