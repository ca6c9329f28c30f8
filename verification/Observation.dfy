/** What start-up observes, in terms of the executions that it observes. */
module Observation {
  import opened Config
  import opened StartAll
  import opened StartupPhase
  import Supervisor

  /** The reading that a process makes at a tick of its dependency at a position. */
  type Reading = (string, nat, nat)

  /** Some process called `n` is running in `m`. */
  ghost predicate RunningIn(ps: seq<ProcessConfig>, m: Supervisor.Manager, n: string) {
    exists j :: 0 <= j < |ps| && j < |m.procs| && ps[j].name == n && m.procs[j].rec.state == Supervisor.Running
  }

  /** The readings come from an execution: reading `r` looks at `run[moment(r)]`, without taking a lock. */
  ghost predicate ReadsFrom(w: World, ps: seq<ProcessConfig>, run: seq<Supervisor.Manager>, moment: Reading -> nat) {
    forall i, t: nat, k | 0 <= i < |ps| && 0 <= k < |ps[i].dependsOn| && w.seen(ps[i].name, t, k) ::
      var r := (ps[i].name, t, k as nat);
      moment(r) < |run| && RunningIn(ps, run[moment(r)], ps[i].dependsOn[k])
  }

  /** Before `end`, a start has created a child for the process called `n`. */
  ghost predicate ChildCreatedBefore(ps: seq<ProcessConfig>, steps: seq<Supervisor.Step>, end: nat, n: string) {
    exists j, s :: 0 <= j < |ps| && ps[j].name == n && 0 <= s < |steps| && s < end
      && steps[s] == Supervisor.Do(j, Supervisor.StartSucceeded)
  }

  /**
   A process that is let through has dependencies that were each started for real: by the time of the
   next start, which follows the readings, a child had been created for every one of them.
   */
  lemma LetThroughAfterStarts(w: World, ps: seq<ProcessConfig>, known: set<string>, i: nat,
                              run: seq<Supervisor.Manager>, steps: seq<Supervisor.Step>, moment: Reading -> nat, next: nat)
    requires Supervisor.IsExecution(ps, run, steps) && ReadsFrom(w, ps, run, moment)
    requires i < |ps| && Observed(w, known, ps[i])
    requires forall t, k :: moment((ps[i].name, t, k)) <= next
    ensures forall d | d in ps[i].dependsOn :: ChildCreatedBefore(ps, steps, next, d)
  {
    var p := ps[i];
    if p.dependsOn != [] {
      var t: nat :| t < w.ticks(p.name) && AllSeen(w, known, p, t);
      forall d | d in p.dependsOn ensures ChildCreatedBefore(ps, steps, next, d) {
        var k :| 0 <= k < |p.dependsOn| && p.dependsOn[k] == d;
        assert Seen(w, known, p, t, k);
        var at := moment((p.name, t, k));
        assert RunningIn(ps, run[at], d);
        var j :| 0 <= j < |ps| && j < |run[at].procs| && ps[j].name == d && run[at].procs[j].rec.state == Supervisor.Running;
        var s := RunningHasChild(ps, run, steps, at, j);
      }
    }
  }
}
