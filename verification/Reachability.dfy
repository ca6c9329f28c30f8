/** What a single process can get into, and by which events. */
module Reachability {
  import opened Config
  import opened Supervisor
  import opened SupervisorSafety
  import opened Wrappers

  /**
   Which runs are looked at: all, those in which every child has exited when its
   own start-up timer expires, or those in which, besides, its process has noticed.
   */
  datatype Law = Anyhow | AfterExit | AfterNotice

  predicate Lawful(law: Law, p: Proc, e: Event) {
    e.TrackerFires? && law != Anyhow ==>
      && e.child !in p.alive
      && (law == AfterNotice ==> !(p.rec.state == Running && p.rec.cmd == Some(e.child)))
  }

  /** A single process can go through `events`, uncancelled, and end in `p`. */
  ghost predicate Reaches(cfg: ProcessConfig, law: Law, events: seq<Event>, p: Proc) {
    exists run :: IsHistory(cfg, law, events, p, run)
  }

  ghost predicate IsHistory(cfg: ProcessConfig, law: Law, events: seq<Event>, p: Proc, run: seq<Manager>) {
    && IsExecution([cfg], run, Steps(events))
    && (forall k | 0 <= k < |events| :: Lawful(law, run[k].procs[0], events[k]))
    && run[|events|].procs[0] == p
    && !run[|events|].cancelled
  }

  ghost function Steps(events: seq<Event>): (steps: seq<Step>)
    ensures |steps| == |events|
  {
    seq(|events|, k requires 0 <= k < |events| => Do(0, events[k]))
  }

  lemma ReachesIdle(cfg: ProcessConfig, law: Law)
    ensures Reaches(cfg, law, [], IDLE)
  {
    assert IsHistory(cfg, law, [], IDLE, [Initial(1)]);
  }

  lemma ReachesNext(cfg: ProcessConfig, law: Law, events: seq<Event>, p: Proc, e: Event)
    requires Reaches(cfg, law, events, p) && Enabled(p, false, e) && Lawful(law, p, e)
    ensures Reaches(cfg, law, events + [e], Next(cfg, p, e))
  {
    var run :| IsHistory(cfg, law, events, p, run);
    var last := run[|events|];
    var longer := run + [Take([cfg], last, Do(0, e))];
    var steps, more := Steps(events), Steps(events + [e]);
    forall k | 0 <= k < |more|
      ensures Possible(longer[k], more[k]) && longer[k + 1] == Take([cfg], longer[k], more[k])
      ensures Lawful(law, longer[k].procs[0], (events + [e])[k])
    {
      if k < |steps| {
        assert run[k + 1] == Take([cfg], run[k], steps[k]);
        assert Lawful(law, run[k].procs[0], events[k]);
      }
    }
    assert IsHistory(cfg, law, events + [e], Next(cfg, p, e), longer);
  }

  lemma ReachedIsSound(cfg: ProcessConfig, law: Law, events: seq<Event>, p: Proc)
    requires Reaches(cfg, law, events, p)
    ensures Invariant(cfg, p)
  {
    var run :| IsHistory(cfg, law, events, p, run);
    AlwaysSound([cfg], run, Steps(events), |events|);
  }

  // ---- what a run takes from outside --------------------------------------------------

  /** Calls of start from outside, and finished stops. */
  datatype Spent = Spent(calls: nat, stops: nat)

  const NOTHING := Spent(0, 0)

  function With(spent: Spent, e: Event): Spent {
    match e
    case StartCalled => spent.(calls := spent.calls + 1)
    case StopFinished => spent.(stops := spent.stops + 1)
    case _ => spent
  }

  ghost predicate Takes(events: seq<Event>, spent: Spent) {
    && Times(Steps(events), 0, StartCalled) == spent.calls
    && Times(Steps(events), 0, StopFinished) == spent.stops
  }

  /** A single process can get into `p` with so much from outside. */
  ghost predicate CanReach(cfg: ProcessConfig, law: Law, spent: Spent, p: Proc) {
    exists events :: Reaches(cfg, law, events, p) && Takes(events, spent)
  }

  lemma CanReachIdle(cfg: ProcessConfig, law: Law)
    ensures CanReach(cfg, law, NOTHING, IDLE)
  {
    ReachesIdle(cfg, law);
    assert Takes([], NOTHING);
  }

  lemma TakesNext(events: seq<Event>, spent: Spent, e: Event)
    requires Takes(events, spent)
    ensures Takes(events + [e], With(spent, e))
  {
    assert Steps(events + [e])[..|events|] == Steps(events);
  }

  lemma CanReachNext(cfg: ProcessConfig, law: Law, spent: Spent, p: Proc, e: Event) returns (q: Proc)
    requires CanReach(cfg, law, spent, p) && Enabled(p, false, e) && Lawful(law, p, e)
    ensures q == Next(cfg, p, e)
    ensures CanReach(cfg, law, With(spent, e), q)
  {
    var events :| Reaches(cfg, law, events, p) && Takes(events, spent);
    ReachesNext(cfg, law, events, p, e);
    TakesNext(events, spent, e);
    q := Next(cfg, p, e);
  }

  lemma CanReachIsSound(cfg: ProcessConfig, law: Law, spent: Spent, p: Proc)
    requires CanReach(cfg, law, spent, p)
    ensures Invariant(cfg, p)
  {
    var events :| Reaches(cfg, law, events, p) && Takes(events, spent);
    ReachedIsSound(cfg, law, events, p);
  }
}
