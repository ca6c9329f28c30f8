/**
 What no bound excludes: endless automatic restarts, even of a process whose
 children all exit before their start-up time.
 */
module RestartLoops {
  import opened Config
  import opened Reachability
  import opened RestartBounds
  import opened Supervisor
  import opened SupervisorSafety
  import opened Wrappers

  /** Restarts after start-up are allowed, and not limited in number. */
  predicate Unlimited(cfg: ProcessConfig) {
    cfg.restartPolicy in {ALWAYS, ON_FAILURE} && cfg.maxRestarts == INFINITE
  }

  /** Some run with at most so many calls of start performs at least `n` automatic restarts. */
  ghost predicate Restarts(cfg: ProcessConfig, law: Law, calls: nat, n: nat) {
    exists spent: Spent, p :: spent.calls <= calls && CanReach(cfg, law, spent, p) && p.performed >= n
  }

  // ---- one lap ----------------------------------------------------------------------------

  /**
   The process runs on child `c`, whose monitor waits for it; the timers of `c` and
   of `t` are pending. The two may be the same child, unless the process would
   have to have noticed the exit of `c` when the timer of `t` expires.
   */
  ghost predicate AtLap(law: Law, p: Proc, c: nat, t: nat) {
    && p.lock == Free && p.rec.state == Running && p.rec.cmd == Some(c)
    && p.alive == {c} && p.waiting == multiset{c}
    && c in p.trackers && t in p.trackers
    && (law == AfterNotice ==> t != c)
  }

  /** The only monitor finds its child failed, and decides. */
  lemma Fails(cfg: ProcessConfig, law: Law, spent: Spent, p: Proc, c: nat) returns (q: Proc)
    requires CanReach(cfg, law, spent, p)
    requires p.lock == Free && p.rec.state == Running && p.waiting == multiset{c} && p.alive == {}
    ensures CanReach(cfg, law, spent, q)
    ensures q.lock == Free && q.rec.state == State.Failed && q.waiting == multiset{} && q.alive == {}
    ensures q.trackers == p.trackers && q.nextChild == p.nextChild && q.performed == p.performed
    ensures ShouldRestart(cfg, p.rec, 1) ==> q.sleeping > 0
  {
    q := CanReachNext(cfg, law, spent, p, MonitorDecides(c, ExitCode(1)));
  }

  lemma Dies(cfg: ProcessConfig, law: Law, spent: Spent, p: Proc, c: nat) returns (q: Proc)
    requires CanReach(cfg, law, spent, p) && c in p.alive
    ensures CanReach(cfg, law, spent, q) && q == p.(alive := p.alive - {c})
  {
    q := CanReachNext(cfg, law, spent, p, ChildExits(c));
  }

  /** From `p` to `q` a tracker for a new child has come, and none has gone. */
  ghost predicate Tracks(p: Proc, q: Proc) {
    p.nextChild in q.trackers && forall c | c in p.trackers :: c in q.trackers
  }

  /** A child is born, and its monitor begins to wait for it. */
  lemma Born(cfg: ProcessConfig, law: Law, spent: Spent, p: Proc) returns (q: Proc)
    requires CanReach(cfg, law, spent, p) && p.lock.HeldByStart?
    ensures CanReach(cfg, law, spent, q)
    ensures q.lock == Free && q.rec == Started(p.rec, p.nextChild)
    ensures q.alive == p.alive + {p.nextChild} && q.waiting == p.waiting + multiset{p.nextChild}
    ensures Tracks(p, q) && q.nextChild == p.nextChild + 1 && q.born == p.born
    ensures q.performed == p.performed
  {
    q := CanReachNext(cfg, law, spent, p, StartSucceeded);
    q := CanReachNext(cfg, law, spent, q, MonitorReads);
  }

  /** A caller starts the process. */
  lemma Launch(cfg: ProcessConfig, law: Law, spent: Spent, p: Proc) returns (q: Proc)
    requires CanReach(cfg, law, spent, p) && p.lock == Free && p.rec.state != Running
    ensures CanReach(cfg, law, With(spent, StartCalled), q)
    ensures q.lock == Free && q.rec == Started(p.rec, p.nextChild)
    ensures q.alive == p.alive + {p.nextChild} && q.waiting == p.waiting + multiset{p.nextChild}
    ensures Tracks(p, q) && q.nextChild == p.nextChild + 1 && q.born == p.born
    ensures q.performed == p.performed
  {
    q := CanReachNext(cfg, law, spent, p, StartCalled);
    q := Born(cfg, law, With(spent, StartCalled), q);
  }

  /** A restart goroutine does. */
  lemma Relaunch(cfg: ProcessConfig, law: Law, spent: Spent, p: Proc) returns (q: Proc)
    requires CanReach(cfg, law, spent, p) && p.lock == Free && p.rec.state != Running && p.sleeping > 0
    ensures CanReach(cfg, law, spent, q)
    ensures q.lock == Free && q.rec == Started(p.rec, p.nextChild)
    ensures q.alive == p.alive + {p.nextChild} && q.waiting == p.waiting + multiset{p.nextChild}
    ensures Tracks(p, q) && q.nextChild == p.nextChild + 1 && q.born == p.born
    ensures q.performed == p.performed + 1
  {
    q := CanReachNext(cfg, law, spent, p, MonitorWakes);
    q := CanReachNext(cfg, law, spent, q, RestartCalled);
    q := Born(cfg, law, spent, q);
  }

  /** The child exits, and a timer completes a start-up before the monitor decides. */
  lemma ExitsUnnoticed(cfg: ProcessConfig, law: Law, spent: Spent, p: Proc, c: nat, t: nat) returns (q: Proc)
    requires CanReach(cfg, law, spent, p) && AtLap(law, p, c, t)
    ensures CanReach(cfg, law, spent, q)
    ensures q.lock == Free && q.rec == p.rec.(startupComplete := true) && q.waiting == p.waiting && q.alive == {}
    ensures (c != t ==> c in q.trackers) && q.nextChild == p.nextChild && q.performed == p.performed
  {
    q := CanReachNext(cfg, law, spent, p, ChildExits(c));
    q := CanReachNext(cfg, law, spent, q, TrackerFires(t));
  }

  lemma UnlimitedRestarts(cfg: ProcessConfig, r: Record)
    requires Unlimited(cfg) && r.startupComplete
    ensures ShouldRestart(cfg, r, 1)
  {
  }

  /** Then the monitor decides, and the restart follows. */
  lemma Lap(cfg: ProcessConfig, law: Law, spent: Spent, p: Proc, c: nat, t: nat) returns (q: Proc, c': nat, t': nat)
    requires Unlimited(cfg) && CanReach(cfg, law, spent, p) && AtLap(law, p, c, t)
    ensures CanReach(cfg, law, spent, q) && AtLap(law, q, c', t')
    ensures q.performed == p.performed + 1
  {
    CanReachIsSound(cfg, law, spent, p);
    assert c < p.nextChild;
    q := ExitsUnnoticed(cfg, law, spent, p, c, t);
    UnlimitedRestarts(cfg, q.rec);
    q := Fails(cfg, law, spent, q, c);
    q := Relaunch(cfg, law, spent, q);
    c' := p.nextChild;
    t' := if law == AfterNotice then c else c';
  }

  // ---- getting into the loop --------------------------------------------------------------

  /** The first child fails before its timer expires. */
  lemma FirstFailure(cfg: ProcessConfig, law: Law) returns (p: Proc)
    ensures CanReach(cfg, law, Spent(1, 0), p)
    ensures p.lock == Free && p.rec.state == State.Failed && p.waiting == multiset{} && p.alive == {}
    ensures 0 in p.trackers && p.nextChild == 1
    ensures cfg.restartPolicy != NEVER && cfg.startRetries > 0 ==> p.sleeping > 0
  {
    CanReachIdle(cfg, law);
    p := Launch(cfg, law, NOTHING, IDLE);
    assert p.alive == {0} && p.waiting == multiset{0};
    p := Dies(cfg, law, Spent(1, 0), p, 0);
    p := Fails(cfg, law, Spent(1, 0), p, 0);
  }

  /** After the first failure a second child is started, by a retry or by a caller. */
  lemma SecondChild(cfg: ProcessConfig, law: Law) returns (spent: Spent, p: Proc)
    requires Unlimited(cfg)
    ensures spent.calls == if cfg.startRetries > 0 then 1 else 2
    ensures CanReach(cfg, law, spent, p) && AtLap(law, p, 1, 0)
  {
    p := FirstFailure(cfg, law);
    if cfg.startRetries > 0 {
      p := Relaunch(cfg, law, Spent(1, 0), p);
      spent := Spent(1, 0);
    } else {
      p := Launch(cfg, law, Spent(1, 0), p);
      spent := Spent(2, 0);
    }
  }

  lemma IntoLoop(cfg: ProcessConfig, law: Law) returns (spent: Spent, p: Proc, c: nat, t: nat)
    requires Unlimited(cfg)
    ensures spent.calls == if law == AfterNotice && cfg.startRetries <= 0 then 2 else 1
    ensures CanReach(cfg, law, spent, p) && AtLap(law, p, c, t)
  {
    if law == AfterNotice {
      spent, p := SecondChild(cfg, law);
      c, t := 1, 0;
    } else {
      CanReachIdle(cfg, law);
      p := Launch(cfg, law, NOTHING, IDLE);
      spent, c, t := Spent(1, 0), 0, 0;
    }
  }

  lemma {:induction false} Laps(cfg: ProcessConfig, law: Law, spent: Spent, p: Proc, c: nat, t: nat, n: nat) returns (q: Proc)
    requires Unlimited(cfg) && CanReach(cfg, law, spent, p) && AtLap(law, p, c, t)
    ensures CanReach(cfg, law, spent, q) && q.performed == p.performed + n
    decreases n
  {
    q := p;
    if n > 0 {
      var c', t';
      q, c', t' := Lap(cfg, law, spent, p, c, t);
      q := Laps(cfg, law, spent, q, c', t', n - 1);
    }
  }

  // ---- when there is no loop --------------------------------------------------------------

  ghost predicate NoRestartDecided(p: Proc) {
    !p.rec.startupComplete && p.rec.startupAttempts == 0 && p.rec.runtimeRestarts == 0
  }

  /** Without retries a lone child whose exit is noticed in time is never replaced. */
  lemma LoneChild(cfg: ProcessConfig, p: Proc, cancelled: bool, e: Event)
    requires NoRestartDecided(p) && Invariant(cfg, p) && p.nextChild <= 1
    requires p.nextChild == 0 || cfg.startRetries <= 0
    requires Enabled(p, cancelled, e) && Lawful(AfterNotice, p, e)
    ensures NoRestartDecided(Next(cfg, p, e))
  {
  }

  lemma {:induction false} NeverRestarted(cfg: ProcessConfig, law: Law, events: seq<Event>, q: Proc, run: seq<Manager>, k: nat)
    requires IsHistory(cfg, law, events, q, run) && k <= |events|
    requires var calls := Times(Steps(events), 0, StartCalled);
      calls == 0 || (calls == 1 && law == AfterNotice && cfg.startRetries <= 0)
    ensures NoRestartDecided(run[k].procs[0])
  {
    if k > 0 {
      var steps, p := Steps(events), run[k - 1].procs[0];
      NeverRestarted(cfg, law, events, q, run, k - 1);
      AlwaysSound([cfg], run, steps, k - 1);
      ChildrenHaveCauses([cfg], run, steps, k - 1, 0);
      TimesGrow(steps, 0, StartCalled, k - 1);
      OneMore([cfg], run, steps, k, 0, StartCalled);
      assert Lawful(law, p, events[k - 1]);
      assert p.nextChild == 0 ==> Lawful(AfterNotice, p, events[k - 1]);
      LoneChild(cfg, p, run[k - 1].cancelled, events[k - 1]);
    }
  }

  /** In a finite budget, or under another policy, the restarts are limited. */
  lemma Limited(cfg: ProcessConfig, law: Law, spent: Spent, p: Proc)
    requires CanReach(cfg, law, spent, p) && !Unlimited(cfg)
    ensures p.performed <= Max(0, cfg.startRetries) + Max(0, cfg.maxRestarts)
  {
    CanReachIsSound(cfg, law, spent, p);
  }

  lemma NotRestarted(cfg: ProcessConfig, law: Law, spent: Spent, p: Proc)
    requires CanReach(cfg, law, spent, p)
    requires spent.calls == 0 || (spent.calls == 1 && law == AfterNotice && cfg.startRetries <= 0)
    ensures p.performed == 0
  {
    var events :| Reaches(cfg, law, events, p) && Takes(events, spent);
    var run :| IsHistory(cfg, law, events, p, run);
    NeverRestarted(cfg, law, events, p, run, |events|);
    CanReachIsSound(cfg, law, spent, p);
  }

  /** The configuration and the number of calls of start leave room for an endless loop. */
  predicate LoopPossible(cfg: ProcessConfig, law: Law, calls: nat) {
    && Unlimited(cfg) && calls > 0
    && (law == AfterNotice ==> cfg.startRetries > 0 || calls > 1)
  }

  /**
   When automatic restarts have no end. A caller can tell from the configuration:
   the policy restarts, and the number of restarts is not limited. It changes
   nothing that every child exits before its own start-up timer expires. If the
   process has noticed each time, a second child is needed, from a retry or from
   a second call of start; then the timer of one child completes the start-up of the next.
   */
  lemma EndlessRestarts(cfg: ProcessConfig, law: Law, calls: nat)
    ensures (forall n: nat :: Restarts(cfg, law, calls, n)) <==> LoopPossible(cfg, law, calls)
  {
    if LoopPossible(cfg, law, calls) {
      forall n: nat ensures Restarts(cfg, law, calls, n) {
        var enough, p, c, t := IntoLoop(cfg, law);
        var q := Laps(cfg, law, enough, p, c, t, n);
      }
    } else {
      var n := 1 + Max(0, cfg.startRetries) + Max(0, cfg.maxRestarts);
      forall spent: Spent, p | spent.calls <= calls && CanReach(cfg, law, spent, p) ensures p.performed < n {
        if Unlimited(cfg) {
          NotRestarted(cfg, law, spent, p);
        } else {
          Limited(cfg, law, spent, p);
        }
      }
      assert !Restarts(cfg, law, calls, n);
    }
  }
}
