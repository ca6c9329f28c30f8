/**
 The critical sections as the methods of a process: each changes the guarded
 fields in place, and is specified by the record functions of the protocol.
 Outcomes that depend on the world outside are arguments.
 */
module ProcessRecord {
  import opened Config
  import opened Supervisor
  import opened SupervisorSafety
  import opened Wrappers

  /**
   What every holder of the lock may rely on when it takes it, and owes when it
   frees it: a settled state, a command while running, counters within budgets.
   */
  ghost predicate Settled(cfg: ProcessConfig, r: Record) {
    && r.state in {Stopped, Running, State.Failed}
    && (r.state == Running ==> r.cmd.Some?)
    && WithinBudgets(cfg, r)
  }

  /** The record with one more restart in the phase it is in. */
  ghost function Counted(r: Record): Record {
    if r.startupComplete then r.(runtimeRestarts := r.runtimeRestarts + 1) else r.(startupAttempts := r.startupAttempts + 1)
  }

  /**
   The restart decision in terms of the budgets: it is positive exactly when one more
   restart of the same phase stays within them, and, once start-up is complete
   under the on-failure policy, the exit code is not zero.
   */
  lemma RestartMeansRoom(cfg: ProcessConfig, r: Record, exitCode: int)
    requires WithinBudgets(cfg, r)
    ensures ShouldRestart(cfg, r, exitCode) <==>
      && WithinBudgets(cfg, Counted(r))
      && (r.startupComplete && cfg.restartPolicy == ON_FAILURE ==> exitCode != 0)
  {
    assert cfg.restartPolicy == ON_FAILURE ==> cfg.restartPolicy != NEVER;
  }

  class Process {
    const config: ProcessConfig
    var state: State
    var cmd: Option<nat>
    var startupAttempts: int
    var runtimeRestarts: int
    var startupComplete: bool

    constructor (config: ProcessConfig)
      ensures this.config == config && Rec() == FRESH && Valid()
    {
      this.config := config;
      state, cmd, startupAttempts, runtimeRestarts, startupComplete := Stopped, None, 0, 0, false;
    }

    ghost function Rec(): Record
      reads this
    {
      Record(state, cmd, startupAttempts, runtimeRestarts, startupComplete)
    }

    ghost predicate Valid()
      reads this
    {
      Settled(config, Rec())
    }

    /**
     Starts a child unless one is running. `loggerOk` and `spawnOk` say whether
     the log file can be opened and the command started; `child` is the new child.
     */
    method StartProcess(cancelled: bool, loggerOk: bool, spawnOk: bool, child: nat) returns (ok: bool, spawned: bool)
      modifies this
      ensures old(Valid()) ==> Valid()
      ensures ok <==> state == Running
      ensures spawned <==> old(state) != Running && loggerOk && spawnOk && !cancelled
      ensures spawned ==> Rec() == old(Rec()).(state := Running, cmd := Some(child), startupComplete := false)
      ensures !spawned ==> Rec() == if old(state) == Running then old(Rec()) else old(Rec()).(state := State.Failed)
      ensures (Rec(), ok, spawned) == StartEffect(old(Rec()), loggerOk && spawnOk && !cancelled, child)
    {
      if state == Running {
        return true, false;
      }
      state := Starting;
      if !loggerOk {
        state := State.Failed;
        return false, false;
      }
      if cancelled || !spawnOk {
        state := State.Failed;
        return false, false;
      }
      cmd := Some(child);
      state := Running;
      startupComplete := false;
      ok, spawned := true, true;
    }

    /** Stops a running child; the call returns only once the child that it names has exited. */
    method StopProcess() returns (awaited: Option<nat>)
      modifies this
      ensures old(Valid()) ==> Valid() && state != Running
      ensures awaited == if old(state) == Running then old(cmd) else None
      ensures Rec() == if old(state) == Running then old(Rec()).(state := Stopped, cmd := None) else old(Rec())
      ensures Rec() == StopEffect(old(Rec()))
    {
      if state != Running {
        return None;
      }
      state := Stopping;
      awaited := cmd;
      state := Stopped;
      cmd := None;
    }

    method ShouldRestartNow(exitCode: int) returns (restart: bool)
      ensures restart == ShouldRestart(config, Rec(), exitCode)
      ensures Valid() ==> (restart <==>
        WithinBudgets(config, Counted(Rec())) && (startupComplete && config.restartPolicy == ON_FAILURE ==> exitCode != 0))
    {
      if config.restartPolicy == NEVER {
        return false;
      }
      if !startupComplete {
        if startupAttempts >= config.startRetries {
          return false;
        }
        return true;
      }
      if config.maxRestarts == INFINITE {
        if config.restartPolicy == ALWAYS {
          return true;
        }
        if config.restartPolicy == ON_FAILURE && exitCode != 0 {
          return true;
        }
        return false;
      }
      if runtimeRestarts >= config.maxRestarts {
        return false;
      }
      if config.restartPolicy == ALWAYS {
        return true;
      }
      if config.restartPolicy == ON_FAILURE && exitCode != 0 {
        return true;
      }
      restart := false;
    }

    /** The critical section of a monitor whose child has exited. */
    method MonitorExit(exit: Exit) returns (restart: bool)
      modifies this
      ensures old(Valid()) ==> Valid() && state != Running
      ensures state == if old(state) == Stopping || exit == Clean then Stopped else State.Failed
      ensures old(state) == Stopping ==> !restart
      ensures Rec() == (if restart then Counted(old(Rec())) else old(Rec())).(state := state)
      ensures (Rec(), restart) == Decide(config, old(Rec()), exit)
    {
      if state == Stopping {
        state := Stopped;
        return false;
      }
      var exitCode := 0;
      if exit != Clean {
        if exit.ExitCode? {
          exitCode := exit.code;
        }
        state := State.Failed;
      } else {
        state := Stopped;
      }
      restart := ShouldRestartNow(exitCode);
      if restart {
        if !startupComplete {
          startupAttempts := startupAttempts + 1;
        } else {
          runtimeRestarts := runtimeRestarts + 1;
        }
      }
    }

    /** The critical section of a start-up tracker whose timer has expired. */
    method CompleteStartup()
      modifies this
      ensures old(Valid()) ==> Valid()
      ensures startupComplete == (old(startupComplete) || state == Running)
      ensures Rec() == old(Rec()).(startupComplete := startupComplete)
      ensures Rec() == Tracked(old(Rec()))
    {
      if state == Running {
        startupComplete := true;
      }
    }
  }

  ghost function StartEffect(r: Record, created: bool, child: nat): (Record, bool, bool) {
    if r.state == Running then (r, true, false)
    else if created then (Started(r, child), true, true)
    else (r.(state := State.Failed), false, false)
  }

  ghost function StopEffect(r: Record): Record {
    if r.state == Running then r.(state := Stopped, cmd := None) else r
  }
}
