/**
 Health checks. Two summaries of the same results are computed separately; they
 give the same verdict on every map the checker can build, but not on every map.
 */
module Health {
  import opened Wrappers

  datatype Status = Healthy | Unhealthy | Unknown

  datatype CheckResult = CheckResult(status: Status, output: string, error: Option<string>, timestamp: int, duration: int)

  /** What one run of a health command produced. */
  datatype Check = Check(name: string, output: string, error: Option<string>, start: int, duration: int)

  datatype Summary = Summary(
    overall: Status,
    total: nat,
    healthy: nat,
    unhealthy: nat,
    unknown: nat,
    checks: map<string, CheckResult>)

  ghost function ResultOf(c: Check): CheckResult {
    CheckResult(if c.error.Some? then Unhealthy else Healthy, c.output, c.error, c.start, c.duration)
  }

  // ---- the meaning of the two summaries -------------------------------------------------

  ghost function WithStatus(results: map<string, CheckResult>, s: Status): set<string> {
    set n | n in results && results[n].status == s
  }

  ghost predicate AllHealthy(results: map<string, CheckResult>) {
    forall n | n in results :: results[n].status == Healthy
  }

  /** No result is still unknown. */
  ghost predicate Settled(results: map<string, CheckResult>) {
    forall n | n in results :: results[n].status != Unknown
  }

  ghost predicate Summarises(results: map<string, CheckResult>, s: Summary) {
    && s.total == |results|
    && s.healthy == |WithStatus(results, Healthy)|
    && s.unhealthy == |WithStatus(results, Unhealthy)|
    && s.unknown == |WithStatus(results, Unknown)|
    && s.checks == results
    && (s.overall == Unhealthy <==> s.unhealthy > 0)
    && (s.overall == Unknown <==> s.unhealthy == 0 && s.unknown > 0 && s.healthy == 0)
  }

  lemma CountsAddUp(results: map<string, CheckResult>)
    ensures |WithStatus(results, Healthy)| + |WithStatus(results, Unhealthy)| + |WithStatus(results, Unknown)| == |results|
  {
    var h, u, k := WithStatus(results, Healthy), WithStatus(results, Unhealthy), WithStatus(results, Unknown);
    assert results.Keys == h + u + k;
    assert |results.Keys| == |h + u| + |k| == |h| + |u| + |k|;
  }

  lemma Members(results: map<string, CheckResult>, s: Status)
    ensures |WithStatus(results, s)| == 0 <==> forall n | n in results :: results[n].status != s
  {
    if |WithStatus(results, s)| == 0 {
      assert WithStatus(results, s) == {};
      assert forall n | n in results && results[n].status == s :: n in WithStatus(results, s);
    } else {
      var n :| n in WithStatus(results, s);
    }
  }

  /**
   On any map of results the counts add up, and the verdicts agree except when
   some results are healthy, some unknown and none unhealthy.
   */
  lemma WhenSummariesAgree(results: map<string, CheckResult>, s: Summary)
    requires Summarises(results, s)
    ensures s.healthy + s.unhealthy + s.unknown == s.total
    ensures (s.overall == Healthy <==> AllHealthy(results)) <==> !(s.healthy > 0 && s.unknown > 0 && s.unhealthy == 0)
  {
    CountsAddUp(results);
    Members(results, Healthy);
    Members(results, Unhealthy);
    Members(results, Unknown);
  }

  // ---- the checker ------------------------------------------------------------------------

  ghost function ResultsAfter(checks: seq<Check>): map<string, CheckResult> {
    if checks == [] then map[]
    else
      var c := checks[|checks| - 1];
      ResultsAfter(checks[..|checks| - 1])[c.name := ResultOf(c)]
  }

  lemma {:induction false} ReachableIsSettled(checks: seq<Check>)
    ensures Settled(ResultsAfter(checks))
  {
    if checks != [] {
      ReachableIsSettled(checks[..|checks| - 1]);
    }
  }

  /** Check `i` is the last one of its name. */
  ghost predicate IsLast(checks: seq<Check>, i: nat) {
    i < |checks| && forall j | i < j < |checks| :: checks[j].name != checks[i].name
  }

  lemma LastBefore(checks: seq<Check>, i: nat)
    requires checks != [] && i < |checks| - 1
    ensures var n := |checks| - 1;
      IsLast(checks, i) <==> IsLast(checks[..n], i) && checks[i].name != checks[n].name
  {
    var front := checks[..|checks| - 1];
    assert forall j | 0 <= j < |front| :: front[j] == checks[j];
  }

  /** There is a result for each name checked, which is that of its last check: healthy if and only if that passed. */
  lemma {:induction false} LastCheckDecides(checks: seq<Check>, i: nat)
    requires IsLast(checks, i)
    ensures var (c, results) := (checks[i], ResultsAfter(checks));
      && c.name in results
      && (results[c.name].status == Healthy <==> c.error.None?)
      && (results[c.name].status == Unhealthy <==> c.error.Some?)
  {
    if i < |checks| - 1 {
      LastBefore(checks, i);
      LastCheckDecides(checks[..|checks| - 1], i);
    }
  }

  lemma {:induction false} ResultsComeFromChecks(checks: seq<Check>, n: string) returns (i: nat)
    requires n in ResultsAfter(checks)
    ensures IsLast(checks, i) && checks[i].name == n
  {
    i := |checks| - 1;
    if checks[i].name != n {
      i := ResultsComeFromChecks(checks[..|checks| - 1], n);
      LastBefore(checks, i);
    }
  }

  /** After any checks, all is healthy exactly if for each name the last check passed. */
  lemma HealthyIffLastChecksPassed(checks: seq<Check>)
    ensures AllHealthy(ResultsAfter(checks)) <==> forall i: nat | IsLast(checks, i) :: checks[i].error.None?
  {
    var results := ResultsAfter(checks);
    forall i: nat | IsLast(checks, i)
      ensures checks[i].name in results && (results[checks[i].name].status == Healthy <==> checks[i].error.None?)
    {
      LastCheckDecides(checks, i);
    }
    if forall i: nat | IsLast(checks, i) :: checks[i].error.None? {
      forall n | n in results ensures results[n].status == Healthy {
        var i := ResultsComeFromChecks(checks, n);
      }
    }
  }

  /**
   Whatever checks have been run, nothing is unknown and both summaries report
   health alike.
   */
  lemma ReachableSummariesAgree(checks: seq<Check>, s: Summary)
    requires Summarises(ResultsAfter(checks), s)
    ensures s.unknown == 0 && s.healthy + s.unhealthy == s.total
    ensures s.overall == Healthy <==> AllHealthy(ResultsAfter(checks))
    ensures s.overall == Unhealthy <==> !AllHealthy(ResultsAfter(checks))
  {
    ReachableIsSettled(checks);
    Members(ResultsAfter(checks), Unknown);
    Members(ResultsAfter(checks), Unhealthy);
    WhenSummariesAgree(ResultsAfter(checks), s);
  }

  class HealthChecker {
    var results: map<string, CheckResult>
    ghost var checks: seq<Check>

    constructor ()
      ensures Valid() && checks == []
    {
      results, checks := map[], [];
    }

    ghost predicate Valid()
      reads this
    {
      results == ResultsAfter(checks)
    }

    method ExecuteHealthCheck(c: Check)
      requires Valid()
      modifies this
      ensures Valid() && checks == old(checks) + [c]
      ensures results.Keys == old(results).Keys + {c.name}
      ensures forall n | n in old(results) && n != c.name :: results[n] == old(results)[n]
      ensures results[c.name].status == if c.error.None? then Healthy else Unhealthy
      ensures results[c.name].output == c.output && results[c.name].error == c.error
      ensures results[c.name].timestamp == c.start && results[c.name].duration == c.duration
    {
      var result := CheckResult(Unknown, "", None, c.start, 0);
      result := result.(duration := c.duration, output := c.output, error := c.error);
      if c.error.Some? {
        result := result.(status := Unhealthy);
      } else {
        result := result.(status := Healthy);
      }
      results := results[c.name := result];
      checks := checks + [c];
      assert checks[..|checks| - 1] == old(checks);
    }

    method IsOverallHealthy() returns (healthy: bool)
      ensures healthy <==> AllHealthy(results)
    {
      var remaining := results.Keys;
      while remaining != {}
        invariant remaining <= results.Keys
        invariant forall n | n in results && n !in remaining :: results[n].status == Healthy
        decreases remaining
      {
        var name :| name in remaining;
        remaining := remaining - {name};
        if results[name].status != Healthy {
          return false;
        }
      }
      healthy := true;
    }

    method GetHealthSummary() returns (s: Summary)
      ensures Summarises(results, s)
    {
      var healthyCount, unhealthyCount, unknownCount := 0, 0, 0;
      var checks: map<string, CheckResult> := map[];
      var remaining := results.Keys;
      while remaining != {}
        invariant Copied(results, remaining, checks)
        invariant Tally(checks, healthyCount, unhealthyCount, unknownCount)
        decreases remaining
      {
        var name :| name in remaining;
        remaining := remaining - {name};
        var r := results[name];
        assert Copied(results, remaining, checks[name := r]);
        TallyNext(checks, name, r, healthyCount, unhealthyCount, unknownCount);
        match r.status {
          case Healthy => healthyCount := healthyCount + 1;
          case Unhealthy => unhealthyCount := unhealthyCount + 1;
          case Unknown => unknownCount := unknownCount + 1;
        }
        checks := checks[name := r];
      }
      assert checks == results;
      var overall := Healthy;
      if unhealthyCount > 0 {
        overall := Unhealthy;
      } else if unknownCount > 0 && healthyCount == 0 {
        overall := Unknown;
      }
      s := Summary(overall, |results|, healthyCount, unhealthyCount, unknownCount, checks);
    }
  }

  /** All results have been copied except the `remaining` ones. */
  ghost predicate Copied(results: map<string, CheckResult>, remaining: set<string>, checks: map<string, CheckResult>) {
    && remaining <= results.Keys
    && checks.Keys == results.Keys - remaining
    && forall n | n in checks :: checks[n] == results[n]
  }

  ghost predicate Tally(checks: map<string, CheckResult>, healthy: int, unhealthy: int, unknown: int) {
    && healthy == |WithStatus(checks, Healthy)|
    && unhealthy == |WithStatus(checks, Unhealthy)|
    && unknown == |WithStatus(checks, Unknown)|
  }

  lemma TallyNext(checks: map<string, CheckResult>, name: string, r: CheckResult, h: int, u: int, k: int)
    requires name !in checks && Tally(checks, h, u, k)
    ensures Tally(checks[name := r],
      h + (if r.status == Healthy then 1 else 0), u + (if r.status == Unhealthy then 1 else 0), k + (if r.status == Unknown then 1 else 0))
  {
    CountedOnce(checks, name, r, Healthy);
    CountedOnce(checks, name, r, Unhealthy);
    CountedOnce(checks, name, r, Unknown);
  }

  lemma CountedOnce(checks: map<string, CheckResult>, name: string, r: CheckResult, s: Status)
    requires name !in checks
    ensures |WithStatus(checks[name := r], s)| == |WithStatus(checks, s)| + (if r.status == s then 1 else 0)
  {
    var more := WithStatus(checks[name := r], s);
    if r.status == s {
      assert more == WithStatus(checks, s) + {name};
    } else {
      assert more == WithStatus(checks, s);
    }
  }
}
