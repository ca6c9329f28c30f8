/**
 Shutdown. Once the context is cancelled the goroutines of all processes can
 take only so many more steps, and as long as some are left, some step towards
 the end is possible. So waiting on the wait group returns.
 */
module Shutdown {
  import opened Config
  import opened Supervisor
  import opened SupervisorSafety

  /** Steps of goroutines, ends of children, and the second halves of starts and stops already begun. */
  predicate Internal(s: Step) {
    s.Do? && s.event != StartCalled && s.event != StopCalled
  }

  /** An upper bound on the internal steps a process can still take once cancelled. */
  ghost function Work(p: Proc): nat {
    7 * p.born + 6 * |p.waiting| + 5 * p.sleeping + 3 * p.restarters + 2 * |p.trackers| + p.leaving + |p.alive|
    + (match p.lock case Free => 0 case HeldByStart(automatic) => (if automatic then 2 else 1) case HeldByStop => 1)
  }

  ghost function TotalWork(procs: seq<Proc>): nat {
    Total(Work, procs)
  }

  lemma OneLess(children: multiset<nat>, c: nat)
    requires c in children
    ensures |children - multiset{c}| == |children| - 1
  {
  }

  lemma WorkOfDecision(cfg: ProcessConfig, p: Proc, c: nat, x: Exit)
    requires Enabled(p, true, MonitorDecides(c, x))
    ensures Work(Next(cfg, p, MonitorDecides(c, x))) < Work(p)
  {
    OneLess(p.waiting, c);
  }

  lemma WorkOfTracker(cfg: ProcessConfig, p: Proc, e: Event)
    requires Enabled(p, true, e) && (e.TrackerFires? || e.TrackerCancelled?)
    ensures Work(Next(cfg, p, e)) < Work(p)
  {
    OneLess(p.trackers, e.child);
  }

  lemma WorkFalls(cfg: ProcessConfig, p: Proc, e: Event)
    requires Enabled(p, true, e)
    ensures e != StartCalled && e != StopCalled ==> Work(Next(cfg, p, e)) < Work(p)
    ensures Work(Next(cfg, p, e)) <= Work(p) + 1
  {
    if e.MonitorDecides? {
      WorkOfDecision(cfg, p, e.child, e.exit);
    } else if e.TrackerFires? || e.TrackerCancelled? {
      WorkOfTracker(cfg, p, e);
    } else if e.ChildExits? {
      assert |p.alive - {e.child}| == |p.alive| - 1;
    }
  }

  ghost function Count(steps: seq<Step>, internal: bool): nat {
    if steps == [] then 0
    else Count(steps[..|steps| - 1], internal) + (if Internal(steps[|steps| - 1]) == internal then 1 else 0)
  }

  /** Cancellation is for good, and from then on no child is ever created. */
  lemma CancelledStep(cfgs: seq<ProcessConfig>, m: Manager, s: Step)
    requires |cfgs| == |m.procs| && m.cancelled && Possible(m, s)
    ensures var m' := Take(cfgs, m, s);
      && m'.cancelled
      && (Internal(s) ==> TotalWork(m'.procs) < TotalWork(m.procs))
      && TotalWork(m'.procs) <= TotalWork(m.procs) + 1
      && forall i | 0 <= i < |cfgs| :: m'.procs[i].alive <= m.procs[i].alive && m'.procs[i].nextChild == m.procs[i].nextChild
  {
    if s.Do? {
      WorkFalls(cfgs[s.i], m.procs[s.i], s.event);
      TotalUpdate(Work, m.procs, s.i, Next(cfgs[s.i], m.procs[s.i], s.event));
    }
  }

  /**
   After cancellation, internal steps are limited by the work left at that
   moment plus one for each call of start or stop made since; and no process
   gains a child.
   */
  lemma {:induction false} WorkIsBounded(cfgs: seq<ProcessConfig>, run: seq<Manager>, steps: seq<Step>)
    requires IsRun(cfgs, run, steps) && run[0].cancelled
    ensures run[|steps|].cancelled
    ensures Count(steps, true) + TotalWork(run[|steps|].procs) <= TotalWork(run[0].procs) + Count(steps, false)
    ensures forall i | 0 <= i < |cfgs| ::
      run[|steps|].procs[i].alive <= run[0].procs[i].alive && run[|steps|].procs[i].nextChild == run[0].procs[i].nextChild
  {
    if steps != [] {
      var n := |steps| - 1;
      WorkIsBounded(cfgs, run[..n + 1], steps[..n]);
      assert run[n + 1] == Take(cfgs, run[n], steps[n]);
      CancelledStep(cfgs, run[n], steps[n]);
    }
  }

  // ---- progress -------------------------------------------------------------------

  ghost predicate CanMove(p: Proc, e: Event) {
    Enabled(p, true, e) && e != StartCalled && e != StopCalled
  }

  lemma LiveProcessMoves(p: Proc) returns (e: Event)
    requires Live(p) > 0
    ensures CanMove(p, e)
  {
    if p.leaving > 0 {
      e := GoroutineLeaves;
    } else if p.sleeping > 0 {
      e := MonitorWakes;
    } else if p.trackers != multiset{} {
      var c :| c in p.trackers;
      e := TrackerCancelled(c);
    } else if p.lock.HeldByStart? {
      e := StartFailed;
    } else if p.lock.HeldByStop? {
      e := if p.rec.cmd.Some? && p.rec.cmd.value in p.alive then ChildExits(p.rec.cmd.value) else StopFinished;
    } else if p.born > 0 {
      e := MonitorReads;
    } else if p.restarters > 0 {
      e := RestartCalled;
    } else {
      var c :| c in p.waiting;
      e := if c in p.alive then ChildExits(c) else MonitorDecides(c, Clean);
    }
  }

  lemma {:induction false} SomeoneLive(procs: seq<Proc>) returns (i: nat)
    requires AllLive(procs) > 0
    ensures i < |procs| && Live(procs[i]) > 0
  {
    i := |procs| - 1;
    if Live(procs[i]) == 0 {
      i := SomeoneLive(procs[..i]);
    }
  }

  /** Some internal step is possible. */
  ghost predicate Movable(m: Manager) {
    exists s :: Internal(s) && Possible(m, s)
  }

  lemma LiveManagerMoves(cfgs: seq<ProcessConfig>, m: Manager)
    requires Sound(cfgs, m) && m.cancelled && m.wg > 0
    ensures Movable(m)
  {
    var i := SomeoneLive(m.procs);
    var e := LiveProcessMoves(m.procs[i]);
    assert Internal(Do(i, e)) && Possible(m, Do(i, e));
  }

  lemma SuffixIsRun(cfgs: seq<ProcessConfig>, run: seq<Manager>, steps: seq<Step>, from: nat)
    requires IsRun(cfgs, run, steps) && from <= |steps|
    ensures IsRun(cfgs, run[from..], steps[from..])
  {
    forall k | 0 <= k < |steps[from..]|
      ensures Possible(run[from..][k], steps[from..][k]) && run[from..][k + 1] == Take(cfgs, run[from..][k], steps[from..][k])
    {
      assert run[from + k + 1] == Take(cfgs, run[from + k], steps[from + k]);
    }
  }

  /**
   Shutdown drains. From the moment of cancellation, in any execution: the
   number of internal steps is bounded; when none is possible any more, the
   wait group is at zero; and no process has gained a child.
   */
  lemma ShutdownDrains(cfgs: seq<ProcessConfig>, run: seq<Manager>, steps: seq<Step>, from: nat)
    requires IsExecution(cfgs, run, steps) && from <= |steps| && run[from].cancelled
    ensures Count(steps[from..], true) <= TotalWork(run[from].procs) + Count(steps[from..], false)
    ensures !Movable(run[|steps|]) ==> run[|steps|].wg == 0
    ensures forall i | 0 <= i < |cfgs| :: run[|steps|].procs[i].alive <= run[from].procs[i].alive
  {
    SuffixIsRun(cfgs, run, steps, from);
    WorkIsBounded(cfgs, run[from..], steps[from..]);
    assert run[from..][|steps[from..]|] == run[|steps|];
    AlwaysSound(cfgs, run, steps, |steps|);
    if run[|steps|].wg > 0 {
      LiveManagerMoves(cfgs, run[|steps|]);
    }
  }

  /** Once drained after cancellation, the wait group stays at zero, whatever is called. */
  lemma DrainedForGood(cfgs: seq<ProcessConfig>, m: Manager, s: Step)
    requires Sound(cfgs, m) && m.cancelled && m.wg == 0 && Possible(m, s)
    ensures Take(cfgs, m, s).wg == 0
  {
    SoundKept(cfgs, m, s);
    if s.Do? {
      TotalAtLeast(Live, m.procs, s.i);
    }
  }
}
