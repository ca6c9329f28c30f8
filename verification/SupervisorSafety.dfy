/** What every run of the supervision protocol keeps. */
module SupervisorSafety {
  import opened Config
  import opened Supervisor

  function Max(a: int, b: int): int {
    if a >= b then a else b
  }

  // ---- the invariant of one process ------------------------------------------------

  /** What the lock protects: the transient states exist only while it is held. */
  ghost predicate LockDiscipline(p: Proc) {
    && (p.lock == Free ==> p.rec.state in {Stopped, Running, State.Failed})
    && (p.lock.HeldByStart? ==> p.rec.state == Starting)
    && (p.lock == HeldByStop ==> p.rec.state == Stopping)
    && (p.rec.state in {Running, Stopping} ==> p.rec.cmd.Some?)
  }

  /** Every restart decided on is still owed or has been performed. */
  ghost predicate RestartsConserved(p: Proc) {
    p.rec.startupAttempts + p.rec.runtimeRestarts == p.sleeping + p.restarters + p.performed
  }

  ghost predicate WithinBudgets(cfg: ProcessConfig, r: Record) {
    && 0 <= r.startupAttempts <= Max(0, cfg.startRetries)
    && 0 <= r.runtimeRestarts
    && (cfg.maxRestarts != INFINITE ==> r.runtimeRestarts <= Max(0, cfg.maxRestarts))
    && (cfg.restartPolicy !in {ALWAYS, ON_FAILURE} ==> r.runtimeRestarts == 0)
    && (cfg.restartPolicy == NEVER ==> r.startupAttempts == 0)
  }

  ghost predicate Below(children: multiset<nat>, n: nat) {
    forall c | c in children :: c < n
  }

  ghost predicate ChildrenNumbered(p: Proc) {
    && (forall c | c in p.alive :: c < p.nextChild)
    && Below(p.waiting, p.nextChild)
    && Below(p.trackers, p.nextChild)
    && (p.rec.cmd.Some? ==> p.rec.cmd.value < p.nextChild)
  }

  ghost predicate Invariant(cfg: ProcessConfig, p: Proc) {
    && LockDiscipline(p)
    && RestartsConserved(p)
    && WithinBudgets(cfg, p.rec)
    && ChildrenNumbered(p)
  }

  lemma DecisionWithinBudgets(cfg: ProcessConfig, r: Record, e: Exit)
    requires WithinBudgets(cfg, r)
    ensures WithinBudgets(cfg, Decide(cfg, r, e).0)
  {
  }

  lemma BelowAdded(children: multiset<nat>, c: nat, n: nat, m: nat)
    requires Below(children, n) && n <= m && c < m
    ensures Below(children + multiset{c}, m)
  {
  }

  lemma BelowRemoved(children: multiset<nat>, c: nat, n: nat)
    requires Below(children, n)
    ensures Below(children - multiset{c}, n)
  {
  }

  lemma StartNumbering(cfg: ProcessConfig, p: Proc)
    requires ChildrenNumbered(p) && p.lock.HeldByStart?
    ensures ChildrenNumbered(Next(cfg, p, StartSucceeded))
  {
    BelowAdded(p.trackers, p.nextChild, p.nextChild, p.nextChild + 1);
  }

  lemma ReadNumbering(cfg: ProcessConfig, p: Proc)
    requires ChildrenNumbered(p) && p.lock == Free && p.born > 0
    ensures ChildrenNumbered(Next(cfg, p, MonitorReads))
  {
    if p.rec.cmd.Some? {
      BelowAdded(p.waiting, p.rec.cmd.value, p.nextChild, p.nextChild);
    }
  }

  lemma DecisionNumbering(cfg: ProcessConfig, p: Proc, cancelled: bool, e: Event)
    requires ChildrenNumbered(p) && Enabled(p, cancelled, e) && e.MonitorDecides?
    ensures ChildrenNumbered(Next(cfg, p, e))
  {
    BelowRemoved(p.waiting, e.child, p.nextChild);
  }

  lemma TrackerNumbering(cfg: ProcessConfig, p: Proc, cancelled: bool, e: Event)
    requires ChildrenNumbered(p) && Enabled(p, cancelled, e) && (e.TrackerFires? || e.TrackerCancelled?)
    ensures ChildrenNumbered(Next(cfg, p, e))
  {
    BelowRemoved(p.trackers, e.child, p.nextChild);
  }

  lemma NumberingKept(cfg: ProcessConfig, p: Proc, cancelled: bool, e: Event)
    requires ChildrenNumbered(p) && Enabled(p, cancelled, e)
    ensures ChildrenNumbered(Next(cfg, p, e))
  {
    if e == StartSucceeded {
      StartNumbering(cfg, p);
    } else if e == MonitorReads {
      ReadNumbering(cfg, p);
    } else if e.MonitorDecides? {
      DecisionNumbering(cfg, p, cancelled, e);
    } else if e.TrackerFires? || e.TrackerCancelled? {
      TrackerNumbering(cfg, p, cancelled, e);
    }
  }

  lemma InvariantKept(cfg: ProcessConfig, p: Proc, cancelled: bool, e: Event)
    requires Invariant(cfg, p) && Enabled(p, cancelled, e)
    ensures Invariant(cfg, Next(cfg, p, e))
  {
    NumberingKept(cfg, p, cancelled, e);
    if e.MonitorDecides? {
      DecisionWithinBudgets(cfg, p.rec, e.exit);
    }
  }

  // ---- the wait group ---------------------------------------------------------------

  /** The goroutines of a process that the wait group has to wait for. */
  ghost function Live(p: Proc): nat {
    p.born + |p.waiting| + p.sleeping + p.restarters + |p.trackers| + p.leaving
    + (if p.lock == HeldByStart(true) then 1 else 0)
  }

  /** The sum of a weight over all processes. */
  ghost function Total(weight: Proc -> nat, procs: seq<Proc>): nat {
    if procs == [] then 0 else Total(weight, procs[..|procs| - 1]) + weight(procs[|procs| - 1])
  }

  ghost function AllLive(procs: seq<Proc>): nat {
    Total(Live, procs)
  }

  lemma {:induction false} TotalUpdate(weight: Proc -> nat, procs: seq<Proc>, i: nat, p: Proc)
    requires i < |procs|
    ensures Total(weight, procs[i := p]) == Total(weight, procs) - weight(procs[i]) + weight(p)
  {
    var n := |procs|;
    if i == n - 1 {
      assert procs[i := p][..n - 1] == procs[..n - 1];
    } else {
      TotalUpdate(weight, procs[..n - 1], i, p);
      assert procs[i := p][..n - 1] == procs[..n - 1][i := p];
    }
  }

  lemma {:induction false} TotalAtLeast(weight: Proc -> nat, procs: seq<Proc>, i: nat)
    requires i < |procs|
    ensures Total(weight, procs) >= weight(procs[i])
  {
    if i < |procs| - 1 {
      TotalAtLeast(weight, procs[..|procs| - 1], i);
    }
  }

  lemma {:induction false} TotalInitially(weight: Proc -> nat, n: nat)
    requires weight(IDLE) == 0
    ensures Total(weight, Initial(n).procs) == 0
  {
    if n > 0 {
      TotalInitially(weight, n - 1);
      assert Initial(n).procs[..n - 1] == Initial(n - 1).procs;
    }
  }

  lemma LiveChange(cfg: ProcessConfig, p: Proc, cancelled: bool, e: Event)
    requires Enabled(p, cancelled, e)
    ensures Live(Next(cfg, p, e)) == Live(p) + WaitGroupChange(e)
  {
  }

  // ---- over whole runs ----------------------------------------------------------------

  ghost predicate Sound(cfgs: seq<ProcessConfig>, m: Manager) {
    && |m.procs| == |cfgs|
    && (forall i | 0 <= i < |cfgs| :: Invariant(cfgs[i], m.procs[i]))
    && m.wg == AllLive(m.procs)
  }

  lemma SoundKept(cfgs: seq<ProcessConfig>, m: Manager, s: Step)
    requires Sound(cfgs, m) && Possible(m, s)
    ensures Sound(cfgs, Take(cfgs, m, s))
  {
    if s.Do? {
      var p := m.procs[s.i];
      InvariantKept(cfgs[s.i], p, m.cancelled, s.event);
      LiveChange(cfgs[s.i], p, m.cancelled, s.event);
      TotalUpdate(Live, m.procs, s.i, Next(cfgs[s.i], p, s.event));
    }
  }

  lemma {:induction false} AlwaysSound(cfgs: seq<ProcessConfig>, run: seq<Manager>, steps: seq<Step>, k: nat)
    requires IsExecution(cfgs, run, steps) && k < |run|
    ensures Sound(cfgs, run[k])
  {
    if k == 0 {
      TotalInitially(Live, |cfgs|);
    } else {
      AlwaysSound(cfgs, run, steps, k - 1);
      assert run[k - 1 + 1] == Take(cfgs, run[k - 1], steps[k - 1]);
      SoundKept(cfgs, run[k - 1], steps[k - 1]);
    }
  }

  /**
   Whoever takes the lock of a process finds it stopped, running or failed, and
   a running process always has its command.
   */
  lemma LockHoldersSeeSettledStates(cfgs: seq<ProcessConfig>, run: seq<Manager>, steps: seq<Step>, k: nat, i: nat)
    requires IsExecution(cfgs, run, steps) && k < |run| && i < |cfgs|
    ensures run[k].procs[i].lock == Free ==> run[k].procs[i].rec.state in {Stopped, Running, State.Failed}
    ensures run[k].procs[i].rec.state == Running ==> run[k].procs[i].rec.cmd.Some?
  {
    AlwaysSound(cfgs, run, steps, k);
  }

  /** A monitor never finds its process in the stopping state, so that branch of its decision is dead. */
  lemma StoppingBranchIsDead(cfgs: seq<ProcessConfig>, run: seq<Manager>, steps: seq<Step>, k: nat, i: nat, c: nat, e: Exit)
    requires IsExecution(cfgs, run, steps) && k < |run| && i < |cfgs|
    requires Enabled(run[k].procs[i], run[k].cancelled, MonitorDecides(c, e))
    ensures run[k].procs[i].rec.state != Stopping
    ensures Decide(cfgs[i], run[k].procs[i].rec, e).1 <==> ShouldRestart(cfgs[i], run[k].procs[i].rec, CodeOf(e))
  {
    AlwaysSound(cfgs, run, steps, k);
  }

  /**
   The wait group counts exactly the live goroutines; so it is positive, and
   waiting on it cannot return, while a decided restart is still to be performed.
   */
  lemma WaitGroupCountsGoroutines(cfgs: seq<ProcessConfig>, run: seq<Manager>, steps: seq<Step>, k: nat)
    requires IsExecution(cfgs, run, steps) && k < |run|
    ensures run[k].wg == AllLive(run[k].procs)
    ensures forall i | 0 <= i < |cfgs| && run[k].procs[i].sleeping + run[k].procs[i].restarters > 0 :: run[k].wg > 0
    ensures forall i | 0 <= i < |cfgs| && run[k].procs[i].lock == HeldByStart(true) :: run[k].wg > 0
  {
    AlwaysSound(cfgs, run, steps, k);
    forall i | 0 <= i < |cfgs| ensures run[k].wg >= Live(run[k].procs[i]) {
      TotalAtLeast(Live, run[k].procs, i);
    }
  }

  /** Restarts counted on the record are those still owed plus those performed. */
  lemma RestartsAreConserved(cfgs: seq<ProcessConfig>, run: seq<Manager>, steps: seq<Step>, k: nat, i: nat)
    requires IsExecution(cfgs, run, steps) && k < |run| && i < |cfgs|
    ensures var p := run[k].procs[i];
      p.rec.startupAttempts + p.rec.runtimeRestarts == p.sleeping + p.restarters + p.performed
  {
    AlwaysSound(cfgs, run, steps, k);
  }

  /** No interleaving of starts, stops and restarts exceeds the configured budgets. */
  lemma RestartBudgets(cfgs: seq<ProcessConfig>, run: seq<Manager>, steps: seq<Step>, k: nat, i: nat)
    requires IsExecution(cfgs, run, steps) && k < |run| && i < |cfgs|
    ensures run[k].procs[i].rec.startupAttempts <= Max(0, cfgs[i].startRetries)
    ensures cfgs[i].maxRestarts != INFINITE ==>
      && run[k].procs[i].rec.runtimeRestarts <= Max(0, cfgs[i].maxRestarts)
      && run[k].procs[i].performed <= Max(0, cfgs[i].startRetries) + Max(0, cfgs[i].maxRestarts)
    ensures cfgs[i].restartPolicy == NEVER ==> run[k].procs[i].performed == 0
  {
    AlwaysSound(cfgs, run, steps, k);
  }

  // ---- counting events --------------------------------------------------------------------

  /** How often the event happened to process `i`. */
  ghost function Times(steps: seq<Step>, i: nat, e: Event): nat {
    if steps == [] then 0
    else Times(steps[..|steps| - 1], i, e) + (if steps[|steps| - 1] == Do(i, e) then 1 else 0)
  }

  lemma OneMore(cfgs: seq<ProcessConfig>, run: seq<Manager>, steps: seq<Step>, k: nat, i: nat, e: Event)
    requires IsExecution(cfgs, run, steps) && 0 < k < |run|
    ensures run[k] == Take(cfgs, run[k - 1], steps[k - 1])
    ensures Times(steps[..k], i, e) == Times(steps[..k - 1], i, e) + (if steps[k - 1] == Do(i, e) then 1 else 0)
  {
    assert run[k - 1 + 1] == Take(cfgs, run[k - 1], steps[k - 1]);
    assert steps[..k][..k - 1] == steps[..k - 1];
  }

  lemma {:induction false} TimesGrow(steps: seq<Step>, i: nat, e: Event, k: nat)
    requires k <= |steps|
    ensures Times(steps[..k], i, e) <= Times(steps, i, e)
  {
    if k < |steps| {
      TimesGrow(steps[..|steps| - 1], i, e, k);
      assert steps[..|steps| - 1][..k] == steps[..k];
    } else {
      assert steps[..k] == steps;
    }
  }

  // ---- runs in which no stop of a process finishes --------------------------------------------

  /** The process is running, or about to be stopped. */
  predicate Up(p: Proc) {
    p.rec.state in {Running, Stopping}
  }

  /** Monitors that have not taken their decision yet. */
  ghost function Undecided(p: Proc): nat {
    p.born + |p.waiting|
  }

  ghost predicate OneChild(p: Proc) {
    && (Up(p) ==>
          && Undecided(p) == 1
          && p.rec.cmd.Some?
          && p.alive <= {p.rec.cmd.value}
          && forall c | c in p.waiting :: c == p.rec.cmd.value)
    && (!Up(p) ==> Undecided(p) == 0 && p.alive == {})
  }

  lemma SingletonWaiting(waiting: multiset<nat>, c: nat)
    requires |waiting| <= 1 && c in waiting
    ensures waiting - multiset{c} == multiset{}
  {
    assert |waiting - multiset{c}| == |waiting| - 1;
  }

  lemma OneChildDecision(cfg: ProcessConfig, p: Proc, cancelled: bool, c: nat, e: Exit)
    requires OneChild(p) && LockDiscipline(p) && Enabled(p, cancelled, MonitorDecides(c, e))
    ensures OneChild(Next(cfg, p, MonitorDecides(c, e)))
  {
    assert p.waiting == p.waiting - multiset{c} + multiset{c};
    SingletonWaiting(p.waiting, c);
  }

  lemma OneChildRead(cfg: ProcessConfig, p: Proc, cancelled: bool)
    requires OneChild(p) && Enabled(p, cancelled, MonitorReads)
    ensures OneChild(Next(cfg, p, MonitorReads))
  {
    assert |p.waiting| == 0;
  }

  lemma OneChildStart(cfg: ProcessConfig, p: Proc, cancelled: bool)
    requires OneChild(p) && LockDiscipline(p) && Enabled(p, cancelled, StartSucceeded)
    ensures OneChild(Next(cfg, p, StartSucceeded))
  {
    assert |p.waiting| == 0;
  }

  lemma OneChildKept(cfg: ProcessConfig, p: Proc, cancelled: bool, e: Event)
    requires OneChild(p) && LockDiscipline(p) && Enabled(p, cancelled, e) && e != StopFinished
    ensures OneChild(Next(cfg, p, e))
  {
    match e
    case MonitorDecides(c, exit) => OneChildDecision(cfg, p, cancelled, c, exit);
    case MonitorReads => OneChildRead(cfg, p, cancelled);
    case StartSucceeded => OneChildStart(cfg, p, cancelled);
    case _ =>
  }

  lemma {:induction false} AlwaysOneChild(cfgs: seq<ProcessConfig>, run: seq<Manager>, steps: seq<Step>, k: nat, i: nat)
    requires IsExecution(cfgs, run, steps) && k < |run| && i < |cfgs| && Times(steps[..k], i, StopFinished) == 0
    ensures OneChild(run[k].procs[i])
  {
    if k > 0 {
      OneMore(cfgs, run, steps, k, i, StopFinished);
      AlwaysOneChild(cfgs, run, steps, k - 1, i);
      AlwaysSound(cfgs, run, steps, k - 1);
      var s := steps[k - 1];
      if s.Do? && s.i == i {
        OneChildKept(cfgs[i], run[k - 1].procs[i], run[k - 1].cancelled, s.event);
      }
    }
  }

  /**
   Until a first stop finishes, a process has at most one live child, however many callers
   start it: it is running, or being stopped, exactly when one monitor is yet to decide.
   */
  lemma AtMostOneChild(cfgs: seq<ProcessConfig>, run: seq<Manager>, steps: seq<Step>, k: nat, i: nat)
    requires IsExecution(cfgs, run, steps) && k < |run| && i < |cfgs| && Times(steps[..k], i, StopFinished) == 0
    ensures var p := run[k].procs[i];
      var up := p.rec.state == Running || p.lock == HeldByStop;
      && |p.alive| <= 1
      && (up <==> Undecided(p) == 1)
      && (!up <==> Undecided(p) == 0)
      && (!up ==> p.alive == {})
  {
    AlwaysOneChild(cfgs, run, steps, k, i);
    AlwaysSound(cfgs, run, steps, k);
    var p := run[k].procs[i];
    if Up(p) {
      assert p.alive == {} || p.alive == {p.rec.cmd.value};
    }
  }
}
