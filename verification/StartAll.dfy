/**
 Starting everything in dependency order. What the outside world contributes is
 an input: whether starting a given process succeeds, and which processes are
 seen running at each tick of a waiting period before its timeout.
 */
module StartAll {
  import opened Config
  import opened DependencyGraph
  import opened StartOrder
  import opened Startup
  import opened Wrappers

  /**
   `ticks` is the number of ticks in the waiting period of a process, and
   `seen` says whether the process, at a tick of its period, reads its
   dependency at a position as running. Each dependency is read by itself.
   */
  datatype World = World(
    startOk: string -> bool,
    ticks: string -> nat,
    seen: (string, nat, nat) -> bool)

  datatype StartError =
    | NoStartOrder
    | StartFailed(name: string)
    | DependencyTimeout(name: string)

  /** Everything a member of `s` depends on, directly or through others, is in `s`. */
  ghost predicate TransitivelyClosed(arcs: Arcs, s: seq<string>) {
    forall p | Walk(arcs, p) && p[|p| - 1] in s :: p[0] in s
  }

  ghost predicate Seen(w: World, known: set<string>, p: ProcessConfig, t: nat, k: nat)
    requires k < |p.dependsOn|
  {
    p.dependsOn[k] in known && w.seen(p.name, t, k)
  }

  ghost predicate AllSeen(w: World, known: set<string>, p: ProcessConfig, t: nat) {
    forall k | 0 <= k < |p.dependsOn| :: Seen(w, known, p, t, k)
  }

  /** At some tick of the waiting period of `p`, each of its dependencies was seen running, unless it has none. */
  ghost predicate Observed(w: World, known: set<string>, p: ProcessConfig) {
    p.dependsOn == [] || exists t: nat :: t < w.ticks(p.name) && AllSeen(w, known, p, t)
  }

  ghost predicate ObservedName(w: World, ps: seq<ProcessConfig>, n: string) {
    exists i :: 0 <= i < |ps| && ps[i].name == n && Observed(w, Names(ps), ps[i])
  }

  /** One pass over the dependencies at one tick, stopping at the first that is not running. */
  method Pass(w: World, known: set<string>, p: ProcessConfig, t: nat) returns (allReady: bool)
    ensures allReady <==> AllSeen(w, known, p, t)
  {
    allReady := true;
    for k := 0 to |p.dependsOn|
      invariant allReady && forall j | 0 <= j < k :: Seen(w, known, p, t, j)
    {
      if p.dependsOn[k] !in known || !w.seen(p.name, t, k) {
        assert !Seen(w, known, p, t, k);
        return false;
      }
    }
  }

  method WaitForDependencies(w: World, known: set<string>, p: ProcessConfig) returns (ok: bool)
    ensures ok <==> Observed(w, known, p)
    ensures p.dependsOn == [] ==> ok
    ensures forall t: nat | t < w.ticks(p.name) && AllSeen(w, known, p, t) :: ok
  {
    if p.dependsOn == [] {
      return true;
    }
    for t := 0 to w.ticks(p.name)
      invariant forall s: nat | s < t :: !AllSeen(w, known, p, s)
    {
      var allReady := Pass(w, known, p, t);
      if allReady {
        return true;
      }
    }
    ok := false;
  }

  method FindProcess(ps: seq<ProcessConfig>, n: string) returns (i: nat)
    requires n in Names(ps)
    ensures i < |ps| && ps[i].name == n
  {
    ghost var k := NameIndex(ps, n);
    i := 0;
    while ps[i].name != n
      invariant i <= k < |ps|
      decreases k - i
    {
      i := i + 1;
    }
  }

  /** `n` processes of the order were started, and each but possibly the last had its dependencies observed. */
  ghost predicate Progress(w: World, ps: seq<ProcessConfig>, order: seq<string>, n: nat, error: Option<StartError>) {
    && n <= |order|
    && (forall i | 0 <= i < n :: w.startOk(order[i]))
    && (forall i | 0 <= i < n - 1 :: ObservedName(w, ps, order[i]))
    && match error
       case None => n == |order| && (n > 0 ==> ObservedName(w, ps, order[n - 1]))
       case Some(NoStartOrder) => false
       case Some(StartFailed(m)) =>
         n < |order| && m == order[n] && !w.startOk(m) && (n > 0 ==> ObservedName(w, ps, order[n - 1]))
       case Some(DependencyTimeout(m)) => n > 0 && m == order[n - 1] && !ObservedName(w, ps, m)
  }

  // ---- what happens, in order ---------------------------------------------------------------

  /** A process is started; or its wait ends because all its dependencies were seen running. */
  datatype Moment = Begun(name: string) | LetThrough(name: string)

  function DepsOf(ps: seq<ProcessConfig>, n: string): seq<string> {
    if ps == [] then [] else if ps[0].name == n then ps[0].dependsOn else DepsOf(ps[1..], n)
  }

  lemma {:induction false} DepsOfEntry(ps: seq<ProcessConfig>, k: nat)
    requires DistinctNames(ps) && k < |ps|
    ensures DepsOf(ps, ps[k].name) == ps[k].dependsOn
  {
    if k > 0 {
      assert NameList(ps)[0] == ps[0].name && NameList(ps)[k] == ps[k].name;
      forall i, j | 0 <= i < j < |ps[1..]| ensures NameList(ps[1..])[i] != NameList(ps[1..])[j] {
        assert NameList(ps)[i + 1] != NameList(ps)[j + 1];
      }
      DepsOfEntry(ps[1..], k - 1);
    }
  }

  function Turn(ps: seq<ProcessConfig>, n: string): seq<Moment> {
    [Begun(n)] + if DepsOf(ps, n) == [] then [] else [LetThrough(n)]
  }

  function Turns(ps: seq<ProcessConfig>, names: seq<string>): seq<Moment> {
    if names == [] then [] else Turns(ps, names[..|names| - 1]) + Turn(ps, names[|names| - 1])
  }

  /** The moments of a run that got to `n` processes of the order: the last may have waited in vain. */
  function Trace(ps: seq<ProcessConfig>, order: seq<string>, n: nat, error: Option<StartError>): seq<Moment>
    requires n <= |order|
  {
    if n > 0 && error.Some? && error.value.DependencyTimeout?
    then Turns(ps, order[..n - 1]) + [Begun(order[n - 1])]
    else Turns(ps, order[..n])
  }

  lemma TurnTaken(w: World, ps: seq<ProcessConfig>, order: seq<string>, n: nat)
    requires n < |order| && Progress(w, ps, order[..n], n, None) && w.startOk(order[n])
    ensures order[..n + 1] == order[..n] + [order[n]] && order[..n + 1][..n] == order[..n]
    ensures ObservedName(w, ps, order[n]) ==> Progress(w, ps, order[..n + 1], n + 1, None)
    ensures !ObservedName(w, ps, order[n]) ==> Progress(w, ps, order, n + 1, Some(DependencyTimeout(order[n])))
  {
    assert order[..n + 1] == order[..n] + [order[n]];
    assert forall i | 0 <= i < n :: order[..n][i] == order[i];
  }

  /** The loop over the start order: start a process, then wait for what it depends on. */
  method StartInOrder(w: World, ps: seq<ProcessConfig>, order: seq<string>)
    returns (n: nat, error: Option<StartError>, trace: seq<Moment>)
    requires DistinctNames(ps) && forall m | m in order :: m in Names(ps)
    ensures Progress(w, ps, order, n, error)
    ensures trace == Trace(ps, order, n, error)
  {
    var known := set p | p in ps :: p.name;
    KnownNames(ps);
    n, trace := 0, [];
    while n < |order|
      invariant n <= |order| && Progress(w, ps, order[..n], n, None)
      invariant trace == Turns(ps, order[..n])
    {
      var name := order[n];
      if !w.startOk(name) {
        return n, Some(StartFailed(name)), trace;
      }
      TurnTaken(w, ps, order, n);
      trace := trace + [Begun(name)];
      var k := FindProcess(ps, name);
      DepsOfEntry(ps, k);
      var ok := WaitForDependencies(w, known, ps[k]);
      n := n + 1;
      if !ok {
        OnlyEntry(ps, k, w);
        return n, Some(DependencyTimeout(name)), trace;
      }
      if ps[k].dependsOn != [] {
        trace := trace + [LetThrough(name)];
      }
    }
    assert order[..n] == order;
    error := None;
  }

  lemma KnownNames(ps: seq<ProcessConfig>)
    ensures (set p | p in ps :: p.name) == Names(ps)
  {
    forall n | n in Names(ps) ensures exists p | p in ps :: p.name == n {
      var i := NameIndex(ps, n);
      assert ps[i] in ps;
    }
    forall p | p in ps ensures p.name in Names(ps) {
      var i :| 0 <= i < |ps| && ps[i] == p;
      NameMember(ps, i);
    }
  }

  lemma OnlyEntry(ps: seq<ProcessConfig>, k: nat, w: World)
    requires DistinctNames(ps) && k < |ps| && !Observed(w, Names(ps), ps[k])
    ensures !ObservedName(w, ps, ps[k].name)
  {
    forall i | 0 <= i < |ps| && ps[i].name == ps[k].name ensures i == k {
      assert NameList(ps)[i] == NameList(ps)[k];
    }
  }

  lemma PrefixClosed(arcs: Arcs, order: seq<string>, k: nat)
    requires Distinct(order) && PredecessorsFirst(arcs, order) && k <= |order|
    ensures TransitivelyClosed(arcs, order[..k])
  {
    forall p | Walk(arcs, p) && p[|p| - 1] in order[..k] ensures p[0] in order[..k] {
      var i :| 0 <= i < k && order[..k][i] == p[|p| - 1];
      WalkStaysOrdered(arcs, order, p, i);
      var j :| 0 <= j < |order[..i + 1]| && order[..i + 1][j] == p[0];
      assert order[..k][j] == p[0];
    }
  }

  /** Whatever has been started, at any moment, contains all it depends on. */
  ghost predicate AlwaysClosed(arcs: Arcs, started: seq<string>) {
    forall k | 0 <= k <= |started| :: TransitivelyClosed(arcs, started[..k])
  }

  lemma PrefixAlwaysClosed(arcs: Arcs, order: seq<string>, n: nat)
    requires Distinct(order) && PredecessorsFirst(arcs, order) && n <= |order|
    ensures AlwaysClosed(arcs, order[..n])
  {
    forall k | 0 <= k <= n ensures TransitivelyClosed(arcs, order[..n][..k]) {
      PrefixClosed(arcs, order, k);
      assert order[..n][..k] == order[..k];
    }
  }

  // ---- the wait comes too late ----------------------------------------------------------------

  /** Some wait that ended before had seen `d` running. */
  ghost predicate SeenBefore(ps: seq<ProcessConfig>, before: seq<Moment>, d: string) {
    exists j :: 0 <= j < |before| && before[j].LetThrough? && d in DepsOf(ps, before[j].name)
  }

  /** Whatever is begun, all it depends on has been seen running before, in its own wait or another's. */
  ghost predicate DependenciesSeenFirst(ps: seq<ProcessConfig>, trace: seq<Moment>) {
    forall i, d | 0 <= i < |trace| && trace[i].Begun? && d in DepsOf(ps, trace[i].name) :: SeenBefore(ps, trace[..i], d)
  }

  ghost predicate NoDependencies(ps: seq<ProcessConfig>, names: seq<string>) {
    forall i | 0 <= i < |names| :: DepsOf(ps, names[i]) == []
  }

  lemma {:induction false} QuietTurns(ps: seq<ProcessConfig>, names: seq<string>)
    requires NoDependencies(ps, names)
    ensures |Turns(ps, names)| == |names|
    ensures forall i | 0 <= i < |names| :: Turns(ps, names)[i] == Begun(names[i])
  {
    if names != [] {
      QuietTurns(ps, names[..|names| - 1]);
    }
  }

  lemma NothingSeenInQuiet(ps: seq<ProcessConfig>, names: seq<string>)
    requires NoDependencies(ps, names)
    ensures forall d :: !SeenBefore(ps, Turns(ps, names), d)
  {
    QuietTurns(ps, names);
  }

  lemma {:induction false} TurnsBegin(ps: seq<ProcessConfig>, names: seq<string>, i: nat)
    requires i < |names|
    ensures Turns(ps, names[..i]) + [Begun(names[i])] <= Turns(ps, names)
  {
    var front := names[..|names| - 1];
    if i < |front| {
      TurnsBegin(ps, front, i);
      assert front[..i] == names[..i];
    }
  }

  lemma {:induction false} NothingSeenBefore(ps: seq<ProcessConfig>, order: seq<string>, n: nat, error: Option<StartError>, i: nat)
    requires i <= n <= |order| && DependenciesSeenFirst(ps, Trace(ps, order, n, error))
    ensures NoDependencies(ps, order[..i])
  {
    if i > 0 {
      var deps := DepsOf(ps, order[i - 1]);
      assert deps == [] || deps[0] in deps;
      NothingSeenBefore(ps, order, n, error, i - 1);
      var before, trace := Turns(ps, order[..i - 1]), Trace(ps, order, n, error);
      QuietTurns(ps, order[..i - 1]);
      NothingSeenInQuiet(ps, order[..i - 1]);
      TraceBegins(ps, order, n, error, i - 1);
      assert trace[i - 1] == Begun(order[i - 1]) && trace[..i - 1] == before;
    }
  }

  lemma TraceBegins(ps: seq<ProcessConfig>, order: seq<string>, n: nat, error: Option<StartError>, i: nat)
    requires i < n <= |order|
    ensures Turns(ps, order[..i]) + [Begun(order[i])] <= Trace(ps, order, n, error)
  {
    if i < n - 1 {
      TurnsBegin(ps, order[..n - 1], i);
      assert order[..n - 1][..i] == order[..i];
    }
    TurnsBegin(ps, order[..n], i);
    assert order[..n][..i] == order[..i];
  }

  lemma {:induction false} QuietTrace(ps: seq<ProcessConfig>, order: seq<string>, n: nat, error: Option<StartError>)
    requires n <= |order| && NoDependencies(ps, order[..n])
    ensures DependenciesSeenFirst(ps, Trace(ps, order, n, error))
  {
    QuietTurns(ps, order[..n]);
    if n > 0 {
      assert order[..n - 1] == order[..n][..n - 1];
      QuietTurns(ps, order[..n - 1]);
      assert order[..n][n - 1] == order[n - 1];
      forall i | 0 <= i < |Trace(ps, order, n, error)| ensures DepsOf(ps, Trace(ps, order, n, error)[i].name) == [] {
        assert Trace(ps, order, n, error)[i] == Begun(order[..n][i]);
      }
    }
  }

  /**
   The wait comes after the start it should guard. So nothing is begun before its
   dependencies have been seen running exactly if nothing begun has dependencies.
   */
  lemma WaitComesTooLate(ps: seq<ProcessConfig>, order: seq<string>, n: nat, error: Option<StartError>)
    requires n <= |order|
    ensures DependenciesSeenFirst(ps, Trace(ps, order, n, error)) <==> NoDependencies(ps, order[..n])
  {
    if DependenciesSeenFirst(ps, Trace(ps, order, n, error)) {
      NothingSeenBefore(ps, order, n, error, n);
    }
    if NoDependencies(ps, order[..n]) {
      QuietTrace(ps, order, n, error);
    }
  }

  /** The least case: `b` depends on `a`, and is begun before anybody has looked at `a`. */
  lemma DependentBegunFirst()
    ensures var ps := [Named("a", []), Named("b", ["a"])];
      && Trace(ps, ["a", "b"], 2, None) == [Begun("a"), Begun("b"), LetThrough("b")]
      && !DependenciesSeenFirst(ps, Trace(ps, ["a", "b"], 2, None))
  {
    var ps := [Named("a", []), Named("b", ["a"])];
    assert ps[1..][0] == Named("b", ["a"]);
    assert DepsOf(ps, "a") == [] && DepsOf(ps, "b") == ["a"];
    assert ["a", "b"][..2][..1] == ["a"] && ["a"][..0] == [];
    assert Turns(ps, ["a"]) == [Begun("a")];
    assert Turns(ps, ["a", "b"][..2]) == [Begun("a"), Begun("b"), LetThrough("b")];
    WaitComesTooLate(ps, ["a", "b"], 2, None);
    assert ["a", "b"][..2][1] == "b";
  }

  /**
   The names started, in order, the error that ended the run, if any, and the
   moments of the run. At every moment, error exits included, what has been
   started contains all it depends on; and every process but the last had its
   dependencies observed running before the next one was started. But a process
   with dependencies is started before these have been observed.
   */
  method StartAll(w: World, ps: seq<ProcessConfig>)
    returns (started: seq<string>, error: Option<StartError>, trace: seq<Moment>)
    ensures AlwaysClosed(DependencyArcs(ps), started)
    ensures error == Some(NoStartOrder) <==> !SortSucceeds(ps, false)
    ensures error == Some(NoStartOrder) ==> started == [] && trace == []
    ensures error != Some(NoStartOrder) ==> exists order ::
      && TopologicalOrder(Names(ps), DependencyArcs(ps), order)
      && |started| <= |order| && started == order[..|started|]
      && Progress(w, ps, order, |started|, error)
      && trace == Trace(ps, order, |started|, error)
    ensures DependenciesSeenFirst(ps, trace) <==> NoDependencies(ps, started)
  {
    StartOrderExists(ps);
    var order := GetStartOrder(ps);
    if order.None? {
      assert AlwaysClosed(DependencyArcs(ps), []);
      return [], Some(NoStartOrder), [];
    }
    ghost var names := order.value;
    assert forall m | m in names :: m in Elements(names);
    var n;
    n, error, trace := StartInOrder(w, ps, order.value);
    started := order.value[..n];
    PrefixAlwaysClosed(DependencyArcs(ps), names, n);
    WaitComesTooLate(ps, names, n, error);
  }

  /** A run without error started every process, with all dependencies observed running. */
  lemma CompleteRun(w: World, ps: seq<ProcessConfig>, order: seq<string>, n: nat)
    requires TopologicalOrder(Names(ps), DependencyArcs(ps), order) && Progress(w, ps, order, n, None)
    ensures Elements(order[..n]) == Names(ps)
    ensures forall m | m in Names(ps) :: w.startOk(m) && ObservedName(w, ps, m)
  {
    assert order[..n] == order;
    forall m | m in Names(ps) ensures w.startOk(m) && ObservedName(w, ps, m) {
      assert m in Elements(order);
      var i :| 0 <= i < |order| && order[i] == m;
      assert i < n - 1 || i == n - 1;
    }
  }
}
