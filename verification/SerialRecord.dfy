/**
 The lock makes starts and stops atomic. In every execution, whatever goroutines do
 between the two halves of a start or a stop, the record of a process is the one
 that the methods of `ProcessRecord` leave when they are called one after another.
 */
module SerialRecord {
  import opened Config
  import opened ProcessRecord
  import opened Supervisor
  import opened SupervisorSafety
  import opened Wrappers

  /** The completed critical sections that can change a record. */
  datatype Section = Start(created: bool) | Stop | Decision(exit: Exit) | Completion

  ghost function SectionOf(e: Event): Option<Section> {
    match e
    case StartFailed => Some(Start(false))
    case StartSucceeded => Some(Start(true))
    case StopFinished => Some(Stop)
    case MonitorDecides(_, exit) => Some(Decision(exit))
    case TrackerFires(_) => Some(Completion)
    case _ => None
  }

  /** The sections of process `i`, in the order in which they free the lock. */
  ghost function Sections(steps: seq<Step>, i: nat): seq<Section> {
    if steps == [] then []
    else
      Sections(steps[..|steps| - 1], i) + SectionsOf(steps[|steps| - 1], i)
  }

  /** What one section makes of a record, and of the number of the next child. */
  ghost function Performed(cfg: ProcessConfig, r: Record, next: nat, s: Section): (Record, nat) {
    match s
    case Start(created) =>
      var (r', _, spawned) := StartEffect(r, created, next);
      (r', if spawned then next + 1 else next)
    case Stop => (StopEffect(r), next)
    case Decision(exit) => (Decide(cfg, r, exit).0, next)
    case Completion => (Tracked(r), next)
  }

  /** The sections one after another, from a fresh record. */
  ghost function Serially(cfg: ProcessConfig, sections: seq<Section>): (Record, nat) {
    if sections == [] then (FRESH, 0)
    else
      var (r, next) := Serially(cfg, sections[..|sections| - 1]);
      Performed(cfg, r, next, sections[|sections| - 1])
  }

  /** The record is `r`, except that whoever holds the lock has marked it as starting or stopping. */
  ghost predicate Shows(p: Proc, r: Record, next: nat) {
    && p.nextChild == next
    && match p.lock
       case Free => p.rec == r
       case HeldByStart(_) => r.state != Running && p.rec == r.(state := Starting)
       case HeldByStop => r.state == Running && p.rec == r.(state := Stopping)
  }

  lemma ShowsKept(cfg: ProcessConfig, p: Proc, cancelled: bool, e: Event, r: Record, next: nat)
    requires Shows(p, r, next) && Enabled(p, cancelled, e)
    ensures var after := if SectionOf(e).Some? then Performed(cfg, r, next, SectionOf(e).value) else (r, next);
      Shows(Next(cfg, p, e), after.0, after.1)
  {
  }

  /** The sections that step `s` completes, if it does. */
  ghost function SectionsOf(s: Step, i: nat): seq<Section> {
    if s.Do? && s.i == i && SectionOf(s.event).Some? then [SectionOf(s.event).value] else []
  }

  lemma SeriallyNext(cfg: ProcessConfig, sections: seq<Section>, s: Section)
    ensures Serially(cfg, sections + [s]) == Performed(cfg, Serially(cfg, sections).0, Serially(cfg, sections).1, s)
  {
    assert (sections + [s])[..|sections|] == sections;
  }

  lemma SectionsNext(steps: seq<Step>, k: nat, i: nat)
    requires k < |steps|
    ensures Sections(steps[..k + 1], i) == Sections(steps[..k], i) + SectionsOf(steps[k], i)
  {
    assert steps[..k + 1][..k] == steps[..k];
  }

  /**
   At any moment of any execution the record is the result of the sections completed so
   far, one after another. While a start or a stop holds the lock it is the
   result from before that, but for the mark.
   */
  lemma {:induction false} RecordsAreSerial(cfgs: seq<ProcessConfig>, run: seq<Manager>, steps: seq<Step>, k: nat, i: nat)
    requires IsExecution(cfgs, run, steps) && k < |run| && i < |cfgs|
    ensures var (r, next) := Serially(cfgs[i], Sections(steps[..k], i));
      Shows(run[k].procs[i], r, next)
  {
    if k > 0 {
      RecordsAreSerial(cfgs, run, steps, k - 1, i);
      var s := steps[k - 1];
      assert run[k - 1 + 1] == Take(cfgs, run[k - 1], s);
      var before := Sections(steps[..k - 1], i);
      SectionsNext(steps, k - 1, i);
      assert before + [] == before;
      if s.Do? && s.i == i {
        var (r, next) := Serially(cfgs[i], before);
        ShowsKept(cfgs[i], run[k - 1].procs[i], run[k - 1].cancelled, s.event, r, next);
        if SectionOf(s.event).Some? {
          SeriallyNext(cfgs[i], before, SectionOf(s.event).value);
        }
      } else {
        assert run[k].procs[i] == run[k - 1].procs[i];
      }
    }
  }

  /** So the methods' assumption is met: whoever takes the lock finds a settled record. */
  lemma LockHoldersFindSettledRecords(cfgs: seq<ProcessConfig>, run: seq<Manager>, steps: seq<Step>, k: nat, i: nat)
    requires IsExecution(cfgs, run, steps) && k < |run| && i < |cfgs| && run[k].procs[i].lock == Free
    ensures Settled(cfgs[i], run[k].procs[i].rec)
    ensures Settled(cfgs[i], Serially(cfgs[i], Sections(steps[..k], i)).0)
  {
    AlwaysSound(cfgs, run, steps, k);
    RecordsAreSerial(cfgs, run, steps, k, i);
  }

  // ---- what the state and the command tell about the past --------------------------------

  /** What the last section other than a completed start-up left. */
  ghost function StateAfter(sections: seq<Section>): State {
    if sections == [] then Stopped
    else
      match sections[|sections| - 1]
      case Start(created) => if created then Running else State.Failed
      case Stop => Stopped
      case Decision(exit) => if exit == Clean then Stopped else State.Failed
      case Completion => StateAfter(sections[..|sections| - 1])
  }

  ghost function ChildrenMade(sections: seq<Section>): nat {
    if sections == [] then 0
    else ChildrenMade(sections[..|sections| - 1]) + (if sections[|sections| - 1] == Start(true) then 1 else 0)
  }

  /** The last child made, unless a stop came after it. */
  ghost function CommandAfter(sections: seq<Section>): Option<nat> {
    if sections == [] then None
    else
      var before := sections[..|sections| - 1];
      match sections[|sections| - 1]
      case Start(true) => Some(ChildrenMade(before))
      case Stop => None
      case _ => CommandAfter(before)
  }

  ghost predicate Follows(p: Proc, sections: seq<Section>) {
    && p.nextChild == ChildrenMade(sections)
    && (p.lock == Free ==> p.rec.state == StateAfter(sections))
    && p.rec.cmd == CommandAfter(sections)
  }

  lemma FollowsStill(cfg: ProcessConfig, p: Proc, cancelled: bool, e: Event, sections: seq<Section>)
    requires Follows(p, sections) && LockDiscipline(p) && Enabled(p, cancelled, e)
    ensures Follows(Next(cfg, p, e), if SectionOf(e).Some? then sections + [SectionOf(e).value] else sections)
  {
    if SectionOf(e).Some? {
      assert (sections + [SectionOf(e).value])[..|sections|] == sections;
    }
  }

  lemma {:induction false} AlwaysFollows(cfgs: seq<ProcessConfig>, run: seq<Manager>, steps: seq<Step>, k: nat, i: nat)
    requires IsExecution(cfgs, run, steps) && k < |run| && i < |cfgs|
    ensures Follows(run[k].procs[i], Sections(steps[..k], i))
  {
    if k > 0 {
      AlwaysFollows(cfgs, run, steps, k - 1, i);
      AlwaysSound(cfgs, run, steps, k - 1);
      var s := steps[k - 1];
      assert run[k - 1 + 1] == Take(cfgs, run[k - 1], s);
      var before := Sections(steps[..k - 1], i);
      SectionsNext(steps, k - 1, i);
      assert before + [] == before;
      if s.Do? && s.i == i {
        FollowsStill(cfgs[i], run[k - 1].procs[i], run[k - 1].cancelled, s.event, before);
      } else {
        assert run[k].procs[i] == run[k - 1].procs[i];
      }
    }
  }

  /**
   In every execution, whoever takes the lock reads off the state what happened last: nothing, a stop or a clean
   exit leaves the process stopped, a start that made a child leaves it running, and a start that failed or any
   other exit leaves it failed. The command is the last child made, unless a stop came after it.
   */
  lemma StateTellsThePast(cfgs: seq<ProcessConfig>, run: seq<Manager>, steps: seq<Step>, k: nat, i: nat)
    requires IsExecution(cfgs, run, steps) && k < |run| && i < |cfgs|
    ensures run[k].procs[i].lock == Free ==> run[k].procs[i].rec.state == StateAfter(Sections(steps[..k], i))
    ensures run[k].procs[i].rec.cmd == CommandAfter(Sections(steps[..k], i))
    ensures run[k].procs[i].nextChild == ChildrenMade(Sections(steps[..k], i))
  {
    AlwaysFollows(cfgs, run, steps, k, i);
  }

  // ---- the two halves of one start or stop ---------------------------------------------

  /** Step `j` takes the lock of process `i`, which is held until step `k` frees it. */
  ghost predicate Holds(run: seq<Manager>, steps: seq<Step>, j: nat, k: nat, i: nat) {
    && j < k < |steps| && |run| == |steps| + 1
    && (forall m | j <= m <= k + 1 :: i < |run[m].procs|)
    && run[j].procs[i].lock == Free && run[k + 1].procs[i].lock == Free
    && forall m | j < m <= k :: run[m].procs[i].lock != Free
  }

  lemma HeldStep(cfg: ProcessConfig, p: Proc, cancelled: bool, e: Event)
    requires p.lock != Free && Enabled(p, cancelled, e) && Next(cfg, p, e).lock != Free
    ensures var q := Next(cfg, p, e);
      q.rec == p.rec && q.lock == p.lock && q.nextChild == p.nextChild && q.alive <= p.alive
  {
  }

  /** Nobody but the holder touches the record, and nobody else makes a child. */
  lemma {:induction false} HeldRecordStays(cfgs: seq<ProcessConfig>, run: seq<Manager>, steps: seq<Step>,
                                           j: nat, k: nat, i: nat, m: nat)
    requires IsRun(cfgs, run, steps) && i < |cfgs| && Holds(run, steps, j, k, i) && j < m <= k
    ensures var p, q := run[j + 1].procs[i], run[m].procs[i];
      q.rec == p.rec && q.lock == p.lock && q.nextChild == p.nextChild && q.alive <= p.alive
  {
    if m > j + 1 {
      HeldRecordStays(cfgs, run, steps, j, k, i, m - 1);
      var s := steps[m - 1];
      assert run[m - 1 + 1] == Take(cfgs, run[m - 1], s);
      if s.Do? && s.i == i {
        HeldStep(cfgs[i], run[m - 1].procs[i], run[m - 1].cancelled, s.event);
      } else {
        assert run[m].procs[i] == run[m - 1].procs[i];
      }
    }
  }

  /** A start has the effect of the method, and spawns a monitor and a tracker exactly if it makes a child. */
  lemma StartIsAtomic(cfgs: seq<ProcessConfig>, run: seq<Manager>, steps: seq<Step>, j: nat, k: nat, i: nat)
    requires IsRun(cfgs, run, steps) && i < |cfgs| && Holds(run, steps, j, k, i)
    requires steps[j] in {Do(i, StartCalled), Do(i, RestartCalled)}
    ensures steps[k] in {Do(i, Event.StartFailed), Do(i, StartSucceeded)}
    ensures var (p, before, q) := (run[j].procs[i], run[k].procs[i], run[k + 1].procs[i]);
      var (r, _, spawned) := StartEffect(p.rec, steps[k] == Do(i, StartSucceeded), p.nextChild);
      && q.rec == r
      && q.nextChild == p.nextChild + (if spawned then 1 else 0)
      && q.born == before.born + (if spawned then 1 else 0)
      && q.trackers == before.trackers + (if spawned then multiset{p.nextChild} else multiset{})
  {
    assert run[j + 1] == Take(cfgs, run[j], steps[j]);
    assert run[k + 1] == Take(cfgs, run[k], steps[k]);
    HeldRecordStays(cfgs, run, steps, j, k, i, k);
  }

  /** A stop has the effect of the method, and the child it stops has exited in between. */
  lemma StopIsAtomic(cfgs: seq<ProcessConfig>, run: seq<Manager>, steps: seq<Step>, j: nat, k: nat, i: nat)
    requires IsRun(cfgs, run, steps) && i < |cfgs| && Holds(run, steps, j, k, i) && steps[j] == Do(i, StopCalled)
    ensures steps[k] == Do(i, StopFinished)
    ensures run[j].procs[i].rec.state == Running
    ensures run[k + 1].procs[i].rec == StopEffect(run[j].procs[i].rec)
    ensures run[j].procs[i].rec.cmd.Some? ==> run[j].procs[i].rec.cmd.value !in run[k].procs[i].alive
  {
    assert run[j + 1] == Take(cfgs, run[j], steps[j]);
    assert run[k + 1] == Take(cfgs, run[k], steps[k]);
    HeldRecordStays(cfgs, run, steps, j, k, i, k);
  }

  /**
   A stop looks like a crash: whatever happens while it lasts, the decision that the monitor
   takes after it is the one it would have taken before it, for every way the child can end.
   */
  lemma StopLooksLikeCrash(cfgs: seq<ProcessConfig>, run: seq<Manager>, steps: seq<Step>, j: nat, k: nat, i: nat, e: Exit)
    requires IsRun(cfgs, run, steps) && i < |cfgs| && Holds(run, steps, j, k, i) && steps[j] == Do(i, StopCalled)
    ensures Decide(cfgs[i], run[k + 1].procs[i].rec, e).1 == Decide(cfgs[i], run[j].procs[i].rec, e).1
  {
    StopIsAtomic(cfgs, run, steps, j, k, i);
  }
}
