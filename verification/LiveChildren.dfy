/**
 When children of one process can be alive side by side, and when a child can
 outlive the wait for the goroutines. Both take a stop, and either three calls of start from
 outside, or two and an automatic restart.
 */
module LiveChildren {
  import opened Config
  import opened Reachability
  import opened RestartBounds
  import opened RestartLoops
  import opened Shutdown
  import opened StopAndRestart
  import opened Supervisor
  import opened SupervisorSafety
  import opened Wrappers

  /** So many calls of start from outside and finished stops leave room for two live children. */
  predicate RoomForTwo(cfg: ProcessConfig, calls: nat, stops: nat) {
    stops > 0 && (calls > 2 || (calls == 2 && RestartsAllowed(cfg)))
  }

  // ---- without that room ----------------------------------------------------------------------

  /** There is no live child but the last one, and a monitor waits for it or is about to. */
  ghost predicate Watched(p: Proc) {
    p.alive != {} ==>
      && p.rec.cmd.Some? && p.alive == {p.rec.cmd.value}
      && (p.born > 0 || p.rec.cmd.value in p.waiting)
  }

  lemma WatchedKept(cfg: ProcessConfig, p: Proc, cancelled: bool, e: Event)
    requires Watched(p) && Enabled(p, cancelled, e) && (e == StartSucceeded ==> p.alive == {})
    ensures Watched(Next(cfg, p, e))
  {
  }

  /** What can lead to a further child: each comes from one call of start from outside. */
  ghost function Tokens(p: Proc): nat {
    Undecided(p) + p.sleeping + p.restarters + (if p.lock.HeldByStart? then 1 else 0)
  }

  lemma TokensHaveCauses(cfg: ProcessConfig, p: Proc, cancelled: bool, e: Event)
    requires Enabled(p, cancelled, e)
    ensures Tokens(Next(cfg, p, e)) <= Tokens(p) + (if e == StartCalled then 1 else 0)
  {
    if e.MonitorDecides? {
      OneLess(p.waiting, e.child);
    }
  }

  lemma {:induction false} TokensBounded(cfgs: seq<ProcessConfig>, run: seq<Manager>, steps: seq<Step>, k: nat, i: nat)
    requires IsExecution(cfgs, run, steps) && k < |run| && i < |cfgs|
    ensures Tokens(run[k].procs[i]) <= Times(steps[..k], i, StartCalled)
  {
    if k > 0 {
      TokensBounded(cfgs, run, steps, k - 1, i);
      OneMore(cfgs, run, steps, k, i, StartCalled);
      var s := steps[k - 1];
      if s.Do? && s.i == i {
        TokensHaveCauses(cfgs[i], run[k - 1].procs[i], run[k - 1].cancelled, s.event);
      }
    }
  }

  /** The first child is alive only while it is the only one, and its process has not been found dead. */
  ghost predicate FirstIsUp(p: Proc) {
    0 in p.alive ==> p.nextChild == 1 && Up(p) && p.rec.cmd == Some(0)
  }

  lemma FirstIsUpKept(cfg: ProcessConfig, p: Proc, cancelled: bool, e: Event)
    requires FirstIsUp(p) && LockDiscipline(p) && ChildrenNumbered(p) && Enabled(p, cancelled, e)
    ensures FirstIsUp(Next(cfg, p, e))
  {
    assert e.MonitorDecides? ==> e.child < p.nextChild;
  }

  lemma {:induction false} AlwaysFirstIsUp(cfgs: seq<ProcessConfig>, run: seq<Manager>, steps: seq<Step>, k: nat, i: nat)
    requires IsExecution(cfgs, run, steps) && k < |run| && i < |cfgs|
    ensures FirstIsUp(run[k].procs[i])
  {
    if k > 0 {
      AlwaysFirstIsUp(cfgs, run, steps, k - 1, i);
      AlwaysSound(cfgs, run, steps, k - 1);
      OneMore(cfgs, run, steps, k, i, StartCalled);
      var s := steps[k - 1];
      if s.Do? && s.i == i {
        FirstIsUpKept(cfgs[i], run[k - 1].procs[i], run[k - 1].cancelled, s.event);
      }
    }
  }

  /** Without the room, nothing is alive while a start is under way. */
  lemma StartsAlone(cfgs: seq<ProcessConfig>, run: seq<Manager>, steps: seq<Step>, k: nat, i: nat)
    requires IsExecution(cfgs, run, steps) && k < |run| && i < |cfgs|
    requires !RoomForTwo(cfgs[i], Times(steps[..k], i, StartCalled), Times(steps[..k], i, StopFinished))
    requires Watched(run[k].procs[i]) && run[k].procs[i].lock.HeldByStart?
    ensures run[k].procs[i].alive == {}
  {
    var p := run[k].procs[i];
    AlwaysSound(cfgs, run, steps, k);
    if Times(steps[..k], i, StopFinished) == 0 {
      AlwaysOneChild(cfgs, run, steps, k, i);
    } else if Times(steps[..k], i, StartCalled) < 2 {
      TokensBounded(cfgs, run, steps, k, i);
    } else {
      AlwaysFirstIsUp(cfgs, run, steps, k, i);
      ChildrenHaveCauses(cfgs, run, steps, k, i);
      assert p.performed == 0;
      assert p.nextChild <= 1;
      assert forall c | c in p.alive :: c == 0;
    }
  }

  lemma {:induction false} AlwaysWatched(cfgs: seq<ProcessConfig>, run: seq<Manager>, steps: seq<Step>, k: nat, i: nat)
    requires IsExecution(cfgs, run, steps) && k < |run| && i < |cfgs|
    requires !RoomForTwo(cfgs[i], Times(steps[..k], i, StartCalled), Times(steps[..k], i, StopFinished))
    ensures Watched(run[k].procs[i])
  {
    if k > 0 {
      OneMore(cfgs, run, steps, k, i, StartCalled);
      OneMore(cfgs, run, steps, k, i, StopFinished);
      AlwaysWatched(cfgs, run, steps, k - 1, i);
      var s := steps[k - 1];
      if s.Do? && s.i == i {
        if s.event == StartSucceeded {
          StartsAlone(cfgs, run, steps, k - 1, i);
        }
        WatchedKept(cfgs[i], run[k - 1].procs[i], run[k - 1].cancelled, s.event);
      }
    }
  }

  /**
   A process with no finished stop, or one call of start from outside, or two and no automatic restarts,
   has at most one live child; and none when the wait for the goroutines returns.
   */
  lemma NoChildSurvives(cfgs: seq<ProcessConfig>, run: seq<Manager>, steps: seq<Step>, k: nat, i: nat)
    requires IsExecution(cfgs, run, steps) && k < |run| && i < |cfgs|
    requires !RoomForTwo(cfgs[i], Times(steps[..k], i, StartCalled), Times(steps[..k], i, StopFinished))
    ensures |run[k].procs[i].alive| <= 1
    ensures run[k].wg == 0 ==> run[k].procs[i].alive == {}
  {
    AlwaysWatched(cfgs, run, steps, k, i);
    AlwaysSound(cfgs, run, steps, k);
    TotalAtLeast(Live, run[k].procs, i);
  }

  // ---- with that room -------------------------------------------------------------------------

  lemma Stop(cfg: ProcessConfig, spent: Spent, p: Proc, c: nat) returns (q: Proc)
    requires CanReach(cfg, Anyhow, spent, p) && p.lock == Free && p.rec.state == Running && p.rec.cmd == Some(c)
    requires c in p.alive
    ensures CanReach(cfg, Anyhow, With(spent, StopFinished), q)
    ensures q == p.(rec := p.rec.(state := Stopped, cmd := None), alive := p.alive - {c})
  {
    q := CanReachNext(cfg, Anyhow, spent, p, StopCalled);
    q := CanReachNext(cfg, Anyhow, spent, q, ChildExits(c));
    q := CanReachNext(cfg, Anyhow, spent, q, StopFinished);
  }

  /** A caller starts the process; the monitor has not read its command yet. */
  lemma Unread(cfg: ProcessConfig, spent: Spent, p: Proc) returns (q: Proc)
    requires CanReach(cfg, Anyhow, spent, p) && p.lock == Free && p.rec.state != Running
    ensures CanReach(cfg, Anyhow, With(spent, StartCalled), q)
    ensures q.lock == Free && q.rec == Started(p.rec, p.nextChild)
    ensures q.alive == p.alive + {p.nextChild} && q.nextChild == p.nextChild + 1
    ensures q.born == p.born + 1 && q.waiting == p.waiting
    ensures forall c | c in p.trackers :: c in q.trackers
  {
    q := CanReachNext(cfg, Anyhow, spent, p, StartCalled);
    q := CanReachNext(cfg, Anyhow, With(spent, StartCalled), q, StartSucceeded);
  }

  /** The process runs on child `c`, unread by its monitor, and the monitor of a dead child is left over. */
  ghost predicate Haunted(p: Proc, c: nat, d: nat) {
    && p.lock == Free && p.rec.state == Running && p.rec.cmd == Some(c)
    && c in p.alive && p.born == 1 && p.waiting == multiset{d} && d !in p.alive
  }

  /** The first child is stopped before its monitor has decided. */
  lemma FirstStopped(cfg: ProcessConfig) returns (p: Proc)
    ensures CanReach(cfg, Anyhow, Spent(1, 1), p) && p.lock == Free && p.rec == FRESH
    ensures p.alive == {} && p.born == 0 && p.waiting == multiset{0} && p.nextChild == 1 && 0 in p.trackers
  {
    CanReachIdle(cfg, Anyhow);
    p := Launch(cfg, Anyhow, NOTHING, IDLE);
    assert p.waiting == multiset{0} && p.alive == {0};
    p := Stop(cfg, Spent(1, 0), p, 0);
  }

  /** With one stop a process comes to run on its second child, under the eyes of the first one's monitor. */
  lemma SecondHaunted(cfg: ProcessConfig) returns (p: Proc)
    ensures CanReach(cfg, Anyhow, Spent(2, 1), p) && Haunted(p, 1, 0)
    ensures p.alive == {1} && p.nextChild == 2 && 0 in p.trackers
    ensures p.rec == Record(Running, Some(1), 0, 0, false)
  {
    p := FirstStopped(cfg);
    p := Unread(cfg, Spent(1, 1), p);
  }

  /** The left-over monitor marks the process as failed, though its child is alive. */
  lemma FoundDead(cfg: ProcessConfig, spent: Spent, p: Proc, c: nat, d: nat) returns (q: Proc)
    requires CanReach(cfg, Anyhow, spent, p) && Haunted(p, c, d)
    ensures CanReach(cfg, Anyhow, spent, q)
    ensures q.lock == Free && q.rec.state == State.Failed && q.alive == p.alive
    ensures q.born == 1 && q.waiting == multiset{} && q.nextChild == p.nextChild
    ensures ShouldRestart(cfg, p.rec, 1) ==> q.sleeping > 0
  {
    q := CanReachNext(cfg, Anyhow, spent, p, MonitorDecides(d, ExitCode(1)));
  }

  // ---- any number of live children from one stop -------------------------------------------------

  lemma Reads(cfg: ProcessConfig, spent: Spent, p: Proc, d: nat) returns (q: Proc)
    requires CanReach(cfg, Anyhow, spent, p) && p.lock == Free && p.rec.cmd == Some(d) && p.born > 0
    ensures CanReach(cfg, Anyhow, spent, q)
    ensures q == p.(born := p.born - 1, waiting := p.waiting + multiset{d})
  {
    q := CanReachNext(cfg, Anyhow, spent, p, MonitorReads);
  }

  /** Both monitors read the command of the last child, which exits. */
  lemma BothRead(cfg: ProcessConfig, spent: Spent, p: Proc, d: nat) returns (q: Proc)
    requires CanReach(cfg, Anyhow, spent, p) && p.lock == Free && p.rec.state == Running && p.rec.cmd == Some(d)
    requires d in p.alive && p.born == 2 && p.waiting == multiset{}
    ensures CanReach(cfg, Anyhow, spent, q)
    ensures q == p.(alive := p.alive - {d}, born := 0, waiting := multiset{d, d})
  {
    q := Reads(cfg, spent, p, d);
    q := Reads(cfg, spent, q, d);
    assert q.waiting == multiset{d, d};
    q := Dies(cfg, Anyhow, spent, q, d);
  }

  /** One of them decides, and the other is left over. */
  lemma OneDecides(cfg: ProcessConfig, spent: Spent, p: Proc, d: nat) returns (q: Proc)
    requires CanReach(cfg, Anyhow, spent, p) && p.lock == Free && p.rec.state == Running
    requires p.waiting == multiset{d, d} && d !in p.alive && p.born == 0
    ensures CanReach(cfg, Anyhow, spent, q)
    ensures q.lock == Free && q.rec.state == State.Failed && q.alive == p.alive
    ensures q.born == 0 && q.waiting == multiset{d} && q.nextChild == p.nextChild
  {
    q := CanReachNext(cfg, Anyhow, spent, p, MonitorDecides(d, ExitCode(1)));
  }

  lemma NumbersAreNew(cfg: ProcessConfig, spent: Spent, p: Proc)
    requires CanReach(cfg, Anyhow, spent, p)
    ensures p.nextChild !in p.alive
  {
    CanReachIsSound(cfg, Anyhow, spent, p);
  }

  /** A further child comes and goes, and leaves a monitor behind. */
  lemma ChildPasses(cfg: ProcessConfig, spent: Spent, p: Proc) returns (q: Proc)
    requires CanReach(cfg, Anyhow, spent, p) && p.lock == Free && p.rec.state == State.Failed
    requires p.born == 1 && p.waiting == multiset{}
    ensures CanReach(cfg, Anyhow, With(spent, StartCalled), q)
    ensures q.lock == Free && q.rec.state == State.Failed && q.alive == p.alive
    ensures q.born == 0 && q.waiting == multiset{p.nextChild} && q.nextChild == p.nextChild + 1
  {
    NumbersAreNew(cfg, spent, p);
    var d := p.nextChild;
    q := Unread(cfg, spent, p);
    q := BothRead(cfg, With(spent, StartCalled), q, d);
    assert q.alive == p.alive;
    q := OneDecides(cfg, With(spent, StartCalled), q, d);
  }

  /** A start under the eyes of a left-over monitor. */
  lemma StartHaunted(cfg: ProcessConfig, spent: Spent, p: Proc, d: nat) returns (q: Proc)
    requires CanReach(cfg, Anyhow, spent, p) && p.lock == Free && p.rec.state == State.Failed
    requires p.born == 0 && p.waiting == multiset{d} && d !in p.alive && d < p.nextChild
    ensures CanReach(cfg, Anyhow, With(spent, StartCalled), q) && Haunted(q, p.nextChild, d)
    ensures |q.alive| == |p.alive| + 1
  {
    NumbersAreNew(cfg, spent, p);
    q := Unread(cfg, spent, p);
  }

  /** Two more calls of start, and no stop, make one more live child. */
  lemma OneMoreChild(cfg: ProcessConfig, spent: Spent, p: Proc, c: nat, d: nat) returns (q: Proc, c': nat, d': nat)
    requires CanReach(cfg, Anyhow, spent, p) && Haunted(p, c, d)
    ensures CanReach(cfg, Anyhow, Spent(spent.calls + 2, spent.stops), q) && Haunted(q, c', d')
    ensures |q.alive| == |p.alive| + 1
  {
    NumbersAreNew(cfg, spent, p);
    d', c' := p.nextChild, p.nextChild + 1;
    q := FoundDead(cfg, spent, p, c, d);
    q := ChildPasses(cfg, spent, q);
    q := StartHaunted(cfg, With(spent, StartCalled), q, d');
  }

  lemma {:induction false} HauntedChildren(cfg: ProcessConfig, n: nat) returns (p: Proc, c: nat, d: nat)
    requires n > 0
    ensures CanReach(cfg, Anyhow, Spent(2 * n, 1), p) && Haunted(p, c, d) && |p.alive| == n
  {
    if n == 1 {
      p := SecondHaunted(cfg);
      c, d := 1, 0;
    } else {
      p, c, d := HauntedChildren(cfg, n - 1);
      p, c, d := OneMoreChild(cfg, Spent(2 * n - 2, 1), p, c, d);
    }
  }

  /** Some run within these limits has `n` live children at once. */
  ghost predicate CanHaveAlive(cfg: ProcessConfig, calls: nat, stops: nat, n: nat) {
    exists spent: Spent, p ::
      spent.calls <= calls && spent.stops <= stops && CanReach(cfg, Anyhow, spent, p) && |p.alive| >= n
  }

  ghost predicate CanEverHaveAlive(cfg: ProcessConfig, stops: nat, n: nat) {
    exists calls: nat :: CanHaveAlive(cfg, calls, stops, n)
  }

  /**
   Live children are bounded in number exactly until a first stop has finished: one stop allows
   any number of them, whatever the configuration, and no stop allows but one.
   */
  lemma OneStopAllowsManyChildren(cfg: ProcessConfig, stops: nat)
    ensures (forall n: nat :: CanEverHaveAlive(cfg, stops, n)) <==> stops > 0
    ensures stops == 0 ==> forall n: nat | CanEverHaveAlive(cfg, stops, n) :: n <= 1
  {
    if stops > 0 {
      forall n: nat ensures CanEverHaveAlive(cfg, stops, n) {
        var p, c, d := HauntedChildren(cfg, n + 1);
        assert CanHaveAlive(cfg, 2 * n + 2, stops, n);
      }
    } else {
      forall n: nat | CanEverHaveAlive(cfg, stops, n) ensures n <= 1 {
        var calls: nat :| CanHaveAlive(cfg, calls, stops, n);
        var spent: Spent, p :|
          spent.calls <= calls && spent.stops <= stops && CanReach(cfg, Anyhow, spent, p) && |p.alive| >= n;
        ReachedUnwatched(cfg, spent, p);
      }
      assert !CanEverHaveAlive(cfg, stops, 2);
    }
  }

  // ---- the exact room for two, and for a child that outlives the wait -------------------------------

  lemma ReachedUnwatched(cfg: ProcessConfig, spent: Spent, p: Proc)
    requires CanReach(cfg, Anyhow, spent, p) && !RoomForTwo(cfg, spent.calls, spent.stops)
    ensures |p.alive| <= 1 && (Live(p) == 0 ==> p.alive == {})
  {
    var events :| Reaches(cfg, Anyhow, events, p) && Takes(events, spent);
    var run :| IsHistory(cfg, Anyhow, events, p, run);
    assert Steps(events)[..|events|] == Steps(events);
    AlwaysWatched([cfg], run, Steps(events), |events|, 0);
  }

  /** The process runs on child 2, with child 1 alive beside it, and no monitor has read a command. */
  ghost predicate TwoAlive(p: Proc) {
    && p.lock == Free && p.rec.state == Running && p.rec.cmd == Some(2)
    && p.alive == {1, 2} && p.born == 2 && p.waiting == multiset{}
  }

  /** The second child is passed over, and a third call of start makes another. */
  lemma TwoByCall(cfg: ProcessConfig) returns (p: Proc)
    ensures CanReach(cfg, Anyhow, Spent(3, 1), p) && TwoAlive(p)
  {
    p := SecondHaunted(cfg);
    p := FoundDead(cfg, Spent(2, 1), p, 1, 0);
    p := Unread(cfg, Spent(2, 1), p);
  }

  /** If no retries are left, the timer of the first child completes the start-up of the second. */
  lemma Restartable(cfg: ProcessConfig) returns (p: Proc)
    requires RestartsAllowed(cfg)
    ensures CanReach(cfg, Anyhow, Spent(2, 1), p) && Haunted(p, 1, 0)
    ensures p.alive == {1} && p.nextChild == 2 && ShouldRestart(cfg, p.rec, 1)
  {
    p := SecondHaunted(cfg);
    if cfg.startRetries <= 0 {
      p := CanReachNext(cfg, Anyhow, Spent(2, 1), p, TrackerFires(0));
    }
  }

  lemma RestartBegins(cfg: ProcessConfig, spent: Spent, p: Proc) returns (q: Proc)
    requires CanReach(cfg, Anyhow, spent, p) && p.lock == Free && p.rec.state != Running && p.sleeping > 0
    ensures CanReach(cfg, Anyhow, spent, q) && q.lock.HeldByStart?
    ensures q.alive == p.alive && q.born == p.born && q.waiting == p.waiting && q.nextChild == p.nextChild
  {
    q := CanReachNext(cfg, Anyhow, spent, p, MonitorWakes);
    q := CanReachNext(cfg, Anyhow, spent, q, RestartCalled);
  }

  /** The second child is passed over, and an automatic restart makes another. */
  lemma TwoByRestart(cfg: ProcessConfig) returns (p: Proc)
    requires RestartsAllowed(cfg)
    ensures CanReach(cfg, Anyhow, Spent(2, 1), p) && TwoAlive(p)
  {
    p := Restartable(cfg);
    p := FoundDead(cfg, Spent(2, 1), p, 1, 0);
    p := RestartBegins(cfg, Spent(2, 1), p);
    p := CanReachNext(cfg, Anyhow, Spent(2, 1), p, StartSucceeded);
  }

  lemma TwoReached(cfg: ProcessConfig, calls: nat, stops: nat) returns (spent: Spent, p: Proc)
    requires RoomForTwo(cfg, calls, stops)
    ensures spent.calls <= calls && spent.stops <= stops && CanReach(cfg, Anyhow, spent, p) && TwoAlive(p)
  {
    if calls > 2 {
      p := TwoByCall(cfg);
      spent := Spent(3, 1);
    } else {
      p := TwoByRestart(cfg);
      spent := Spent(2, 1);
    }
  }

  /** When two children of one process can be alive at once. Both limits are in the hands of callers. */
  lemma WhenTwoChildrenLive(cfg: ProcessConfig, calls: nat, stops: nat)
    ensures CanHaveAlive(cfg, calls, stops, 2) <==> RoomForTwo(cfg, calls, stops)
  {
    if RoomForTwo(cfg, calls, stops) {
      var spent, p := TwoReached(cfg, calls, stops);
      assert |p.alive| == 2;
    }
    if CanHaveAlive(cfg, calls, stops, 2) {
      var spent: Spent, p :|
        spent.calls <= calls && spent.stops <= stops && CanReach(cfg, Anyhow, spent, p) && |p.alive| >= 2;
      if !RoomForTwo(cfg, spent.calls, spent.stops) {
        ReachedUnwatched(cfg, spent, p);
      }
    }
  }

  // ---- draining without harm to the living ------------------------------------------------------------

  /** Nobody has yet to read a command, and every monitor waits for a dead child. */
  ghost predicate Orphaned(p: Proc) {
    p.born == 0 && p.lock != HeldByStop && forall c | c in p.waiting :: c !in p.alive
  }

  /** Something an orphaned process can do that neither makes nor ends a child. */
  ghost predicate Harmless(e: Event) {
    e in {Event.StartFailed, RestartCalled, MonitorWakes, GoroutineLeaves} || e.MonitorDecides? || e.TrackerFires?
  }

  lemma OrphanedMoves(p: Proc) returns (e: Event)
    requires Orphaned(p) && Live(p) > 0
    ensures Harmless(e) && Enabled(p, false, e)
  {
    if p.leaving > 0 {
      e := GoroutineLeaves;
    } else if p.sleeping > 0 {
      e := MonitorWakes;
    } else if p.lock.HeldByStart? {
      e := Event.StartFailed;
    } else if p.restarters > 0 {
      e := RestartCalled;
    } else if p.trackers != multiset{} {
      var c :| c in p.trackers;
      e := TrackerFires(c);
    } else {
      var c :| c in p.waiting;
      e := MonitorDecides(c, Clean);
    }
  }

  lemma HarmlessStep(cfg: ProcessConfig, p: Proc, e: Event)
    requires Orphaned(p) && Harmless(e) && Enabled(p, false, e)
    ensures var q := Next(cfg, p, e);
      Orphaned(q) && q.alive == p.alive && Work(q) < Work(p)
  {
    assert Enabled(p, true, e);
    WorkFalls(cfg, p, e);
  }

  /** All goroutines of an orphaned process can come to their end while its children live on. */
  lemma {:induction false} Drain(cfg: ProcessConfig, spent: Spent, p: Proc) returns (q: Proc)
    requires CanReach(cfg, Anyhow, spent, p) && Orphaned(p)
    ensures CanReach(cfg, Anyhow, spent, q) && Live(q) == 0 && q.alive == p.alive
    decreases Work(p)
  {
    q := p;
    if Live(p) > 0 {
      var e := OrphanedMoves(p);
      HarmlessStep(cfg, p, e);
      q := CanReachNext(cfg, Anyhow, spent, p, e);
      q := Drain(cfg, spent, q);
    }
  }

  /** Some run within these limits has no goroutine left that the wait group counts, and a child alive. */
  ghost predicate CanOutlive(cfg: ProcessConfig, calls: nat, stops: nat) {
    exists spent: Spent, p ::
      spent.calls <= calls && spent.stops <= stops && CanReach(cfg, Anyhow, spent, p) && p.alive != {} && Live(p) == 0
  }

  /**
   When a child can outlive the wait for the goroutines: exactly when two can be alive at once. The monitor
   of the first then reads the command of the second, and nobody waits for the first.
   */
  lemma WhenChildrenOutliveTheWait(cfg: ProcessConfig, calls: nat, stops: nat)
    ensures CanOutlive(cfg, calls, stops) <==> RoomForTwo(cfg, calls, stops)
  {
    if RoomForTwo(cfg, calls, stops) {
      var spent, p := TwoReached(cfg, calls, stops);
      var q := BothRead(cfg, spent, p, 2);
      assert 1 in q.alive;
      q := Drain(cfg, spent, q);
    }
    if CanOutlive(cfg, calls, stops) {
      var spent: Spent, p :|
        spent.calls <= calls && spent.stops <= stops && CanReach(cfg, Anyhow, spent, p) && p.alive != {} && Live(p) == 0;
      if !RoomForTwo(cfg, spent.calls, spent.stops) {
        ReachedUnwatched(cfg, spent, p);
      }
    }
  }
}
