/**
 How often a process can be restarted, and how many children it can get. Every
 bound holds in every execution, stops included.
 */
module RestartBounds {
  import opened Config
  import opened Supervisor
  import opened SupervisorSafety

  // ---- what pays for a restart --------------------------------------------------------

  /**
   A restart after start-up is paid for by a completed start-up, or by a stop that
   left a monitor behind which takes its decision under a later child's start-up.
   */
  ghost predicate RestartsPaidFor(p: Proc, stops: nat) {
    && (Up(p) ==> Undecided(p) > 0)
    && p.rec.runtimeRestarts + (if p.rec.state == Running && p.rec.startupComplete then 1 else 0) + Undecided(p)
       <= p.completions + stops + (if Up(p) then 1 else 0)
  }

  lemma DecisionPaidFor(cfg: ProcessConfig, p: Proc, cancelled: bool, c: nat, x: Exit, stops: nat)
    requires RestartsPaidFor(p, stops) && LockDiscipline(p) && Enabled(p, cancelled, MonitorDecides(c, x))
    ensures RestartsPaidFor(Next(cfg, p, MonitorDecides(c, x)), stops)
  {
    assert |p.waiting - multiset{c}| == |p.waiting| - 1;
  }

  lemma RestartsPaidForKept(cfg: ProcessConfig, p: Proc, cancelled: bool, e: Event, stops: nat)
    requires RestartsPaidFor(p, stops) && LockDiscipline(p) && Enabled(p, cancelled, e)
    ensures RestartsPaidFor(Next(cfg, p, e), stops + (if e == StopFinished then 1 else 0))
  {
    if e.MonitorDecides? {
      DecisionPaidFor(cfg, p, cancelled, e.child, e.exit, stops);
    }
  }

  lemma {:induction false} AlwaysPaidFor(cfgs: seq<ProcessConfig>, run: seq<Manager>, steps: seq<Step>, k: nat, i: nat)
    requires IsExecution(cfgs, run, steps) && k < |run| && i < |cfgs|
    ensures RestartsPaidFor(run[k].procs[i], Times(steps[..k], i, StopFinished))
  {
    if k > 0 {
      AlwaysPaidFor(cfgs, run, steps, k - 1, i);
      AlwaysSound(cfgs, run, steps, k - 1);
      OneMore(cfgs, run, steps, k, i, StopFinished);
      var s := steps[k - 1];
      if s.Do? && s.i == i {
        RestartsPaidForKept(cfgs[i], run[k - 1].procs[i], run[k - 1].cancelled, s.event, Times(steps[..k - 1], i, StopFinished));
      }
    }
  }

  /**
   Even with unlimited restarts a process cannot spin: automatic restarts are paid
   for by start-up retries, completed start-ups and stops.
   */
  lemma CrashLoopBound(cfgs: seq<ProcessConfig>, run: seq<Manager>, steps: seq<Step>, k: nat, i: nat)
    requires IsExecution(cfgs, run, steps) && k < |run| && i < |cfgs|
    ensures run[k].procs[i].performed <=
      Max(0, cfgs[i].startRetries) + run[k].procs[i].completions + Times(steps[..k], i, StopFinished)
  {
    AlwaysSound(cfgs, run, steps, k);
    AlwaysPaidFor(cfgs, run, steps, k, i);
  }

  // ---- how many children there can ever be ------------------------------------------------

  /** Children made and in the making. */
  ghost function Births(p: Proc): nat {
    p.nextChild + (if p.lock.HeldByStart? then 1 else 0)
  }

  lemma BirthsHaveCauses(cfg: ProcessConfig, p: Proc, cancelled: bool, e: Event)
    requires Enabled(p, cancelled, e)
    ensures Births(Next(cfg, p, e)) - Births(p)
      <= Next(cfg, p, e).performed - p.performed + (if e == StartCalled then 1 else 0)
  {
  }

  /** Every child was created by a call of start, from a caller or from a restart goroutine. */
  lemma {:induction false} ChildrenHaveCauses(cfgs: seq<ProcessConfig>, run: seq<Manager>, steps: seq<Step>, k: nat, i: nat)
    requires IsExecution(cfgs, run, steps) && k < |run| && i < |cfgs|
    ensures Births(run[k].procs[i]) <= Times(steps[..k], i, StartCalled) + run[k].procs[i].performed
  {
    if k > 0 {
      ChildrenHaveCauses(cfgs, run, steps, k - 1, i);
      OneMore(cfgs, run, steps, k, i, StartCalled);
      var s := steps[k - 1];
      if s.Do? && s.i == i {
        BirthsHaveCauses(cfgs[i], run[k - 1].procs[i], run[k - 1].cancelled, s.event);
      }
    }
  }

  /**
   With finite budgets the children ever created are at most the calls of start
   plus the budgets.
   */
  lemma ChildrenWithinBudgets(cfgs: seq<ProcessConfig>, run: seq<Manager>, steps: seq<Step>, k: nat, i: nat)
    requires IsExecution(cfgs, run, steps) && k < |run| && i < |cfgs| && cfgs[i].maxRestarts != INFINITE
    ensures run[k].procs[i].nextChild <=
      Times(steps[..k], i, StartCalled) + Max(0, cfgs[i].startRetries) + Max(0, cfgs[i].maxRestarts)
  {
    ChildrenHaveCauses(cfgs, run, steps, k, i);
    RestartBudgets(cfgs, run, steps, k, i);
  }

  // ---- processes whose start-up never completes --------------------------------------------

  ghost predicate StillStarting(p: Proc) {
    p.completions == 0 ==> !p.rec.startupComplete && p.rec.runtimeRestarts == 0
  }

  lemma StillStartingKept(cfg: ProcessConfig, p: Proc, cancelled: bool, e: Event)
    requires StillStarting(p) && Enabled(p, cancelled, e)
    ensures StillStarting(Next(cfg, p, e))
  {
  }

  lemma {:induction false} AlwaysStillStarting(cfgs: seq<ProcessConfig>, run: seq<Manager>, steps: seq<Step>, k: nat, i: nat)
    requires IsExecution(cfgs, run, steps) && k < |run| && i < |cfgs|
    ensures StillStarting(run[k].procs[i])
  {
    if k > 0 {
      AlwaysStillStarting(cfgs, run, steps, k - 1, i);
      OneMore(cfgs, run, steps, k, i, StartCalled);
      var s := steps[k - 1];
      if s.Do? && s.i == i {
        StillStartingKept(cfgs[i], run[k - 1].procs[i], run[k - 1].cancelled, s.event);
      }
    }
  }

  /**
   A process that never completes its start-up is given up, even with unlimited
   restarts: it gets no more children than calls of start plus start retries.
   */
  lemma BrokenProcessGivenUp(cfgs: seq<ProcessConfig>, run: seq<Manager>, steps: seq<Step>, k: nat, i: nat)
    requires IsExecution(cfgs, run, steps) && k < |run| && i < |cfgs|
    requires run[k].procs[i].completions == 0
    ensures run[k].procs[i].nextChild <= Times(steps[..k], i, StartCalled) + Max(0, cfgs[i].startRetries)
  {
    ChildrenHaveCauses(cfgs, run, steps, k, i);
    AlwaysSound(cfgs, run, steps, k);
    AlwaysStillStarting(cfgs, run, steps, k, i);
  }
}
