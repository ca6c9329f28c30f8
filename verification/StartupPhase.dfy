/** When a process counts as started, and what that decides. */
module StartupPhase {
  import opened Config
  import opened Supervisor
  import opened SupervisorSafety
  import opened Wrappers

  /** At step `j` a start-up timer expires while the process is running. */
  ghost predicate Completes(run: seq<Manager>, steps: seq<Step>, j: nat, i: nat) {
    && j < |steps| && j < |run| && i < |run[j].procs|
    && steps[j].Do? && steps[j].i == i && steps[j].event.TrackerFires?
    && run[j].procs[i].rec.state == Running
  }

  /** That has happened before `k`, and no child has been created since. */
  ghost predicate CompletedSinceStart(run: seq<Manager>, steps: seq<Step>, k: nat, i: nat) {
    exists j :: 0 <= j < k && Completes(run, steps, j, i) && NoChildSince(steps, j, k, i)
  }

  ghost predicate NoChildSince(steps: seq<Step>, j: nat, k: nat, i: nat) {
    forall m | j <= m < k && m < |steps| :: steps[m] != Do(i, StartSucceeded)
  }

  lemma CompletionStep(cfgs: seq<ProcessConfig>, run: seq<Manager>, steps: seq<Step>, k: nat, i: nat)
    requires IsExecution(cfgs, run, steps) && k < |steps| && i < |cfgs|
    ensures CompletedSinceStart(run, steps, k + 1, i) <==>
      Completes(run, steps, k, i) || (CompletedSinceStart(run, steps, k, i) && steps[k] != Do(i, StartSucceeded))
  {
    if Completes(run, steps, k, i) {
      assert NoChildSince(steps, k, k + 1, i);
    }
    if CompletedSinceStart(run, steps, k, i) && steps[k] != Do(i, StartSucceeded) {
      var j :| 0 <= j < k && Completes(run, steps, j, i) && NoChildSince(steps, j, k, i);
      assert NoChildSince(steps, j, k + 1, i);
    }
    if CompletedSinceStart(run, steps, k + 1, i) && !Completes(run, steps, k, i) {
      var j :| 0 <= j < k + 1 && Completes(run, steps, j, i) && NoChildSince(steps, j, k + 1, i);
      assert NoChildSince(steps, j, k, i);
    }
  }

  lemma RecordStep(cfg: ProcessConfig, p: Proc, cancelled: bool, e: Event)
    requires Enabled(p, cancelled, e)
    ensures Next(cfg, p, e).rec.startupComplete <==>
      (e.TrackerFires? && p.rec.state == Running) || (p.rec.startupComplete && e != StartSucceeded)
    ensures e != StartSucceeded && Next(cfg, p, e).rec.state == Running ==>
      p.rec.state == Running && Next(cfg, p, e).rec.cmd == p.rec.cmd
  {
  }

  /**
   Start-up is complete exactly when some timer has expired on the running process
   since its last child was created: any timer, not only that child's own.
   */
  lemma {:induction false} StartupCompletion(cfgs: seq<ProcessConfig>, run: seq<Manager>, steps: seq<Step>, k: nat, i: nat)
    requires IsExecution(cfgs, run, steps) && k < |run| && i < |cfgs|
    ensures run[k].procs[i].rec.startupComplete <==> CompletedSinceStart(run, steps, k, i)
  {
    if k > 0 {
      StartupCompletion(cfgs, run, steps, k - 1, i);
      CompletionStep(cfgs, run, steps, k - 1, i);
      var s := steps[k - 1];
      assert run[k - 1 + 1] == Take(cfgs, run[k - 1], s);
      if s.Do? && s.i == i {
        RecordStep(cfgs[i], run[k - 1].procs[i], run[k - 1].cancelled, s.event);
      }
    }
  }

  /**
   Under the on-failure policy, how a child ended matters to its monitor exactly if a timer has expired on the
   running process since the last child was created. Until then even a clean exit leads to a restart while
   retries are left; after that only a non-zero exit code does, and not a failure to learn the code.
   */
  lemma OnFailureRule(cfgs: seq<ProcessConfig>, run: seq<Manager>, steps: seq<Step>, k: nat, i: nat)
    requires IsExecution(cfgs, run, steps) && k < |steps| && i < |cfgs| && cfgs[i].restartPolicy == ON_FAILURE
    requires steps[k].Do? && steps[k].i == i && steps[k].event.MonitorDecides?
    ensures var (p, q, exit) := (run[k].procs[i], run[k + 1].procs[i], steps[k].event.exit);
      q.sleeping == p.sleeping + 1 <==>
        if CompletedSinceStart(run, steps, k, i) then
          exit.ExitCode? && exit.code != 0 && (cfgs[i].maxRestarts == INFINITE || p.rec.runtimeRestarts < cfgs[i].maxRestarts)
        else
          p.rec.startupAttempts < cfgs[i].startRetries
  {
    StartupCompletion(cfgs, run, steps, k, i);
    AlwaysSound(cfgs, run, steps, k);
    assert run[k + 1] == Take(cfgs, run[k], steps[k]);
  }

  /** A process that is seen running, with or without its lock, runs on the child that its last start created. */
  lemma {:induction false} RunningHasChild(cfgs: seq<ProcessConfig>, run: seq<Manager>, steps: seq<Step>, k: nat, i: nat)
    returns (j: nat)
    requires IsExecution(cfgs, run, steps) && k < |run| && i < |cfgs| && run[k].procs[i].rec.state == Running
    ensures j < k && steps[j] == Do(i, StartSucceeded) && NoChildSince(steps, j + 1, k, i)
    ensures run[k].procs[i].rec.cmd == Some(run[j].procs[i].nextChild)
  {
    var s := steps[k - 1];
    assert run[k - 1 + 1] == Take(cfgs, run[k - 1], s);
    if s == Do(i, StartSucceeded) {
      j := k - 1;
    } else {
      if s.Do? && s.i == i {
        RecordStep(cfgs[i], run[k - 1].procs[i], run[k - 1].cancelled, s.event);
      } else {
        assert run[k].procs[i] == run[k - 1].procs[i];
      }
      j := RunningHasChild(cfgs, run, steps, k - 1, i);
    }
  }
}
