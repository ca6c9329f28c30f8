/**
 What stopping does not achieve. A stop and the monitor race for the end of the
 same child, and the monitor always finds the process already stopped rather
 than stopping. So it treats the stop like a crash.
 */
module StopAndRestart {
  import opened Config
  import opened Reachability
  import opened Supervisor
  import opened Wrappers

  /** The configuration allows some automatic restart. */
  predicate RestartsAllowed(cfg: ProcessConfig) {
    && cfg.restartPolicy != NEVER
    && (cfg.startRetries > 0
        || (cfg.restartPolicy in {ALWAYS, ON_FAILURE} && (cfg.maxRestarts == INFINITE || cfg.maxRestarts > 0)))
  }

  /** In some run a process is stopped, and then an automatic restart is performed, nobody having started it since. */
  ghost predicate RestartedAfterStop(cfg: ProcessConfig, before: seq<Event>, after: seq<Event>, p: Proc) {
    && before != [] && before[|before| - 1] == StopFinished
    && RestartCalled in after && StartCalled !in after && StopCalled !in after
    && p.rec.state == Running && p.alive != {}
    && Reaches(cfg, Anyhow, before + after, p)
  }

  // ---- the run up to a finished stop ----------------------------------------------

  const STARTED := [StartCalled, StartSucceeded, MonitorReads]

  lemma StartReached(cfg: ProcessConfig) returns (p: Proc)
    ensures Reaches(cfg, Anyhow, STARTED, p)
    ensures p == IDLE.(rec := Record(Running, Some(0), 0, 0, false), alive := {0}, nextChild := 1,
                       waiting := multiset{0}, trackers := multiset{0})
  {
    ReachesIdle(cfg, Anyhow);
    ReachesNext(cfg, Anyhow, [], IDLE, StartCalled);
    var p1 := Next(cfg, IDLE, StartCalled);
    ReachesNext(cfg, Anyhow, [] + [StartCalled], p1, StartSucceeded);
    var p2 := Next(cfg, p1, StartSucceeded);
    ReachesNext(cfg, Anyhow, [] + [StartCalled] + [StartSucceeded], p2, MonitorReads);
    p := Next(cfg, p2, MonitorReads);
    assert [] + [StartCalled] + [StartSucceeded] + [MonitorReads] == STARTED;
  }

  const STOP := [StopCalled, ChildExits(0), StopFinished]

  /** Stopping a process whose only child is number 0, and whose monitor waits for it. */
  lemma StopReached(cfg: ProcessConfig, events: seq<Event>, p: Proc) returns (q: Proc)
    requires Reaches(cfg, Anyhow, events, p)
    requires p.lock == Free && p.rec.state == Running && p.rec.cmd == Some(0) && p.alive == {0}
    ensures Reaches(cfg, Anyhow, events + STOP, q)
    ensures q == p.(rec := p.rec.(state := Stopped, cmd := None), alive := {})
  {
    ReachesNext(cfg, Anyhow, events, p, StopCalled);
    var p1 := Next(cfg, p, StopCalled);
    ReachesNext(cfg, Anyhow, events + [StopCalled], p1, ChildExits(0));
    var p2 := Next(cfg, p1, ChildExits(0));
    ReachesNext(cfg, Anyhow, events + [StopCalled] + [ChildExits(0)], p2, StopFinished);
    q := Next(cfg, p2, StopFinished);
    assert events + [StopCalled] + [ChildExits(0)] + [StopFinished] == events + STOP;
  }

  const RESTART := [MonitorDecides(0, ExitCode(1)), MonitorWakes, RestartCalled, StartSucceeded]

  /** The monitor of the stopped child takes its decision. */
  lemma DecisionReached(cfg: ProcessConfig, events: seq<Event>, p: Proc) returns (q: Proc)
    requires Reaches(cfg, Anyhow, events, p)
    requires p.lock == Free && p.rec.state == Stopped && p.waiting == multiset{0} && p.alive == {}
    requires ShouldRestart(cfg, p.rec, 1)
    ensures Reaches(cfg, Anyhow, events + [MonitorDecides(0, ExitCode(1))], q)
    ensures q.lock == Free && q.rec.state == State.Failed && q.alive == {} && q.nextChild == p.nextChild && q.sleeping > 0
  {
    ReachesNext(cfg, Anyhow, events, p, MonitorDecides(0, ExitCode(1)));
    q := Next(cfg, p, MonitorDecides(0, ExitCode(1)));
  }

  /** Then the process comes back. */
  lemma RestartReached(cfg: ProcessConfig, events: seq<Event>, p: Proc) returns (q: Proc)
    requires Reaches(cfg, Anyhow, events, p)
    requires p.lock == Free && p.rec.state == Stopped && p.waiting == multiset{0} && p.alive == {}
    requires ShouldRestart(cfg, p.rec, 1)
    ensures Reaches(cfg, Anyhow, events + RESTART, q)
    ensures q.rec.state == Running && q.alive == {p.nextChild}
  {
    var decide := MonitorDecides(0, ExitCode(1));
    var p1 := DecisionReached(cfg, events, p);
    ReachesNext(cfg, Anyhow, events + [decide], p1, MonitorWakes);
    var p2 := Next(cfg, p1, MonitorWakes);
    ReachesNext(cfg, Anyhow, events + [decide] + [MonitorWakes], p2, RestartCalled);
    var p3 := Next(cfg, p2, RestartCalled);
    ReachesNext(cfg, Anyhow, events + [decide] + [MonitorWakes] + [RestartCalled], p3, StartSucceeded);
    q := Next(cfg, p3, StartSucceeded);
    assert events + [decide] + [MonitorWakes] + [RestartCalled] + [StartSucceeded] == events + RESTART;
  }

  /** A running process that would be restarted if its child failed: past its start-up, if no retries are allowed. */
  lemma RestartableReached(cfg: ProcessConfig) returns (events: seq<Event>, p: Proc)
    requires RestartsAllowed(cfg)
    ensures Reaches(cfg, Anyhow, events, p) && ShouldRestart(cfg, p.rec, 1)
    ensures p.lock == Free && p.rec.state == Running && p.rec.cmd == Some(0)
    ensures p.alive == {0} && p.waiting == multiset{0}
  {
    p := StartReached(cfg);
    events := STARTED;
    if cfg.startRetries <= 0 {
      ReachesNext(cfg, Anyhow, STARTED, p, TrackerFires(0));
      p := Next(cfg, p, TrackerFires(0));
      events := STARTED + [TrackerFires(0)];
    }
  }

  lemma AllowedRestartHappens(cfg: ProcessConfig) returns (before: seq<Event>, p: Proc)
    requires RestartsAllowed(cfg)
    ensures RestartedAfterStop(cfg, before, RESTART, p)
  {
    var events, running := RestartableReached(cfg);
    var stopped := StopReached(cfg, events, running);
    p := RestartReached(cfg, events + STOP, stopped);
    before := events + STOP;
    assert before[|before| - 1] == STOP[2];
    assert RestartCalled == RESTART[2];
  }

  lemma {:induction false} PerformedCounts(cfg: ProcessConfig, run: seq<Manager>, events: seq<Event>, j: nat, k: nat)
    requires IsExecution([cfg], run, Steps(events)) && j < k <= |events|
    requires events[j] == RestartCalled
    ensures run[k].procs[0].performed > 0
  {
    assert run[k - 1 + 1] == Take([cfg], run[k - 1], Steps(events)[k - 1]);
    if j < k - 1 {
      PerformedCounts(cfg, run, events, j, k - 1);
    }
  }

  lemma RestartNeedsAllowance(cfg: ProcessConfig, events: seq<Event>, p: Proc)
    requires Reaches(cfg, Anyhow, events, p) && RestartCalled in events
    ensures RestartsAllowed(cfg)
  {
    var run :| IsHistory(cfg, Anyhow, events, p, run);
    var j :| 0 <= j < |events| && events[j] == RestartCalled;
    PerformedCounts(cfg, run, events, j, |events|);
    ReachedIsSound(cfg, Anyhow, events, p);
  }

  /**
   A stopped process can come back by itself exactly when the configuration
   allows automatic restarts at all.
   */
  lemma StopIsNotFinal(cfg: ProcessConfig)
    ensures (exists before, after, p :: RestartedAfterStop(cfg, before, after, p)) <==> RestartsAllowed(cfg)
  {
    if RestartsAllowed(cfg) {
      var before, p := AllowedRestartHappens(cfg);
    }
    forall before, after, p | RestartedAfterStop(cfg, before, after, p) ensures RestartsAllowed(cfg) {
      assert RestartCalled in before + after;
      RestartNeedsAllowance(cfg, before + after, p);
    }
  }
}
