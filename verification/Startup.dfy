/**
 The two dependency algorithms side by side: configuration validation runs the
 depth-first check, start-up and shutdown run the topological sort.
 */
module Startup {
  import opened Config
  import opened CycleCheck
  import opened DependencyGraph
  import opened StartOrder
  import opened Wrappers

  // ---- when the forward sort succeeds ------------------------------------------

  lemma BlockedByUndefined(ps: seq<ProcessConfig>, i: nat, d: string)
    requires i < |ps| && d in ps[i].dependsOn && d !in Names(ps)
    ensures ps[i].name in Names(ps) && ps[i].name !in Orderable(ps, false)
  {
    var n := ps[i].name;
    NameMember(ps, i);
    DependencyArcMember(ps, d, n);
    assert BlockedBy(Names(ps), DependencyArcs(ps), n, [d, n]);
  }

  lemma BlockedByCycle(ps: seq<ProcessConfig>)
    requires Cyclic(DependencyArcs(ps))
    ensures exists n :: n in Names(ps) && n !in Orderable(ps, false)
  {
    var c :| Cycle(DependencyArcs(ps), c);
    var n := c[0];
    assert (c[|c| - 2], c[|c| - 1]) in DependencyArcs(ps);
    DependencyArcMember(ps, c[|c| - 2], n);
    assert OnCycle(DependencyArcs(ps), n);
    assert BlockedBy(Names(ps), DependencyArcs(ps), n, [n]);
    assert n in Names(ps) && n !in Orderable(ps, false);
  }

  lemma NothingBlocked(ps: seq<ProcessConfig>, reverse: bool)
    requires DependenciesDefined(ps) && !Cyclic(SortArcs(ps, reverse))
    ensures Orderable(ps, reverse) == Nodes(ps, reverse) == Names(ps)
  {
    DefinedNodes(ps, reverse);
    var arcs := SortArcs(ps, reverse);
    forall v, p | v in Names(ps) ensures !BlockedBy(Nodes(ps, reverse), arcs, v, p) {
      assert Walk(arcs, p) && |p| >= 2 ==> (p[0], p[1]) in arcs;
    }
  }

  /** With every dependency defined, all arcs run between names. */
  lemma DefinedNodes(ps: seq<ProcessConfig>, reverse: bool)
    requires DependenciesDefined(ps)
    ensures Nodes(ps, reverse) == Names(ps)
    ensures forall u, v | (u, v) in SortArcs(ps, reverse) :: u in Names(ps) && v in Names(ps)
  {
    forall u, v | (u, v) in SortArcs(ps, reverse) ensures u in Names(ps) && v in Names(ps) {
      FlipMember(DependencyArcs(ps), u, v);
      DependencyArcMember(ps, u, v);
      DependencyArcMember(ps, v, u);
    }
  }

  lemma NamesSize(ps: seq<ProcessConfig>)
    ensures |Names(ps)| <= |ps|
    ensures |Names(ps)| == |ps| <==> DistinctNames(ps)
  {
    DistinctSize(NameList(ps));
  }

  /**
   Any list of processes at all: a start order exists exactly when names are
   distinct, every dependency is defined and the dependency graph is acyclic.
   */
  lemma StartOrderExists(ps: seq<ProcessConfig>)
    ensures SortSucceeds(ps, false) <==>
      DistinctNames(ps) && DependenciesDefined(ps) && !Cyclic(DependencyArcs(ps))
    ensures SortSucceeds(ps, false) ==> Orderable(ps, false) == Names(ps)
  {
    NamesSize(ps);
    assert Orderable(ps, false) <= Names(ps);
    SubsetSize(Orderable(ps, false), Names(ps));
    if DependenciesDefined(ps) && !Cyclic(DependencyArcs(ps)) {
      NothingBlocked(ps, false);
    }
    if Cyclic(DependencyArcs(ps)) {
      BlockedByCycle(ps);
    }
    if !DependenciesDefined(ps) {
      var i, d :| 0 <= i < |ps| && d in ps[i].dependsOn && d !in Names(ps);
      BlockedByUndefined(ps, i, d);
    }
  }

  // ---- the two algorithms agree --------------------------------------------------

  lemma EveryEntryIsLast(ps: seq<ProcessConfig>)
    requires DistinctNames(ps)
    ensures EffectiveArcs(ps) == DependencyArcs(ps)
  {
    forall i: nat | i < |ps| ensures IsLast(ps, i) {
      forall j | i < j < |ps| ensures ps[j].name != ps[i].name {
        assert NameList(ps)[i] != NameList(ps)[j];
      }
    }
    assert forall n, d :: EffectivelyLists(ps, n, d) <==> Lists(ps, n, d);
  }

  /** Any list of processes: sorting succeeds exactly when the check passes on a list of distinct, defined names. */
  lemma CheckAndSortAgree(ps: seq<ProcessConfig>)
    ensures SortSucceeds(ps, false) <==> !Rejects(ps) && DistinctNames(ps) && DependenciesDefined(ps)
  {
    StartOrderExists(ps);
    if DistinctNames(ps) && DependenciesDefined(ps) {
      EveryEntryIsLast(ps);
      forall i: nat, k: nat ensures !UndefinedAt(ps, i, k) {
        if i < |ps| && k < |ps[i].dependsOn| {
          assert ps[i].dependsOn[k] in ps[i].dependsOn;
        }
      }
      assert !UndefinedRepeated(ps);
    }
  }

  /** The reverse sort, which an undefined dependency can fool, is exact once dependencies are defined. */
  lemma ReverseSortExact(ps: seq<ProcessConfig>)
    requires DependenciesDefined(ps)
    ensures SortSucceeds(ps, true) <==> DistinctNames(ps) && !Cyclic(DependencyArcs(ps))
    ensures SortSucceeds(ps, true) ==> Orderable(ps, true) == Names(ps)
  {
    NamesSize(ps);
    FlipCyclic(DependencyArcs(ps));
    DefinedNodes(ps, true);
    SubsetSize(Orderable(ps, true), Names(ps));
    if !Cyclic(DependencyArcs(ps)) {
      NothingBlocked(ps, true);
    } else {
      var c :| Cycle(SortArcs(ps, true), c);
      assert (c[0], c[1]) in SortArcs(ps, true);
      assert OnCycle(SortArcs(ps, true), c[0]);
      assert BlockedBy(Names(ps), SortArcs(ps, true), c[0], [c[0]]);
    }
  }

  /** On distinct, defined names all four verdicts coincide: check, graph, and the sort in either direction. */
  lemma VerdictsCoincide(ps: seq<ProcessConfig>)
    requires DistinctNames(ps) && DependenciesDefined(ps)
    ensures Rejects(ps) <==> Cyclic(DependencyArcs(ps))
    ensures Rejects(ps) <==> !SortSucceeds(ps, false)
    ensures Rejects(ps) <==> !SortSucceeds(ps, true)
    ensures SortSucceeds(ps, true) ==> Orderable(ps, true) == Names(ps)
  {
    CheckAndSortAgree(ps);
    StartOrderExists(ps);
    ReverseSortExact(ps);
  }

  function Named(name: string, dependsOn: seq<string>): ProcessConfig {
    ProcessConfig(name, "true", ALWAYS, dependsOn, "", 0, 0, 0, INFINITE, 0)
  }

  /** `a` lost in a cycle of its own, and `b` depending on the undefined name `x`. */
  function Fooling(a: string, b: string, x: string): seq<ProcessConfig> {
    [Named(a, [a]), Named(b, [x])]
  }

  /**
   A false alarm of the depth-first check, on a list that has not been screened: one
   process names the same undefined dependency twice, and no cycle exists.
   */
  lemma FalseAlarm(a: string, x: string)
    requires a != x
    ensures var ps := [Named(a, [x, x])];
      Rejects(ps) && !Cyclic(EffectiveArcs(ps)) && !Cyclic(DependencyArcs(ps))
  {
    var ps := [Named(a, [x, x])];
    NameMember(ps, 0);
    assert Names(ps) == {a} by {
      forall n | n in Names(ps) ensures n == a {
        var i := NameIndex(ps, n);
      }
    }
    assert UndefinedAt(ps, 0, 0) && UndefinedAt(ps, 0, 1);
    assert forall d, n | (d, n) in EffectiveArcs(ps) + DependencyArcs(ps) :: n == a && d == x;
    NoWayBack(EffectiveArcs(ps), a);
    NoWayBack(DependencyArcs(ps), a);
  }

  /** Arcs that all lead to one name, and from others, make no cycle. */
  lemma NoWayBack(arcs: Arcs, a: string)
    requires forall d, n | (d, n) in arcs :: n == a && d != a
    ensures !Cyclic(arcs)
  {
    forall p ensures !Cycle(arcs, p) {
      assert Walk(arcs, p) && |p| >= 2 ==> (p[0], p[1]) in arcs && (p[|p| - 2], p[|p| - 1]) in arcs;
    }
  }

  lemma FoolingArcs(a: string, b: string, x: string)
    ensures var ps := Fooling(a, b, x);
      && (forall n, d :: Lists(ps, n, d) <==> (n == d == a) || (n == b && d == x))
      && Names(ps) == {a, b} && AllDependencies(ps) == {a, x}
  {
    var ps := Fooling(a, b, x);
    assert ps[0].name == a && ps[0].dependsOn == [a] && a in ps[0].dependsOn;
    assert ps[1].name == b && ps[1].dependsOn == [x] && x in ps[1].dependsOn;
    NameMember(ps, 0);
    NameMember(ps, 1);
    forall n | n in Names(ps) ensures n in {a, b} {
      var i := NameIndex(ps, n);
    }
  }

  lemma FoolingSortArcs(a: string, b: string, x: string)
    ensures forall u, v :: (u, v) in SortArcs(Fooling(a, b, x), true) <==> (u == v == a) || (u == b && v == x)
    ensures (a, a) in DependencyArcs(Fooling(a, b, x))
  {
    var ps := Fooling(a, b, x);
    FoolingArcs(a, b, x);
    forall u, v ensures (u, v) in SortArcs(ps, true) <==> (u == v == a) || (u == b && v == x) {
      FlipMember(DependencyArcs(ps), u, v);
      DependencyArcMember(ps, v, u);
    }
    DependencyArcMember(ps, a, a);
  }

  /**
   Without validation the reverse sort can be fooled: an undefined dependency
   counts as a node and makes up for a process lost in a cycle.
   */
  lemma ReverseSortFooled(a: string, b: string, x: string)
    requires a != b && a != x && b != x
    ensures var ps := Fooling(a, b, x);
      SortSucceeds(ps, true) && Cyclic(DependencyArcs(ps)) && !SortSucceeds(ps, false)
  {
    var ps := Fooling(a, b, x);
    FoolingArcs(a, b, x);
    FoolingSortArcs(a, b, x);
    var arcs, order := SortArcs(ps, true), [b, x];
    assert Elements(order) == {b, x};
    assert order[..1] == [b];
    assert Waits(arcs, order, a) by {
      assert (a, a) in arcs && a !in order;
    }
    MaximalOrderIsStartable(Nodes(ps, true), arcs, order);
    assert Cycle(DependencyArcs(ps), [a, a]);
    StartOrderExists(ps);
  }

  // ---- the stop order --------------------------------------------------------------

  /** An order read backwards satisfies the specification of the sort in the other direction. */
  lemma BackwardsIsReverseOrder(nodes: set<string>, arcs: Arcs, order: seq<string>, back: seq<string>)
    requires TopologicalOrder(nodes, arcs, order)
    requires forall u, v | (u, v) in arcs :: v in nodes
    requires |back| == |order| && forall i | 0 <= i < |back| :: back[i] == order[|order| - 1 - i]
    ensures TopologicalOrder(nodes, Flip(arcs), back)
  {
    var n := |order|;
    forall x ensures x in back <==> x in order {
      if x in order {
        var i :| 0 <= i < n && order[i] == x;
        assert back[n - 1 - i] == x;
      }
    }
    assert Elements(back) == Elements(order);
    forall i, u | 0 <= i < n && (u, back[i]) in Flip(arcs) ensures u in back[..i] {
      FlipMember(arcs, u, back[i]);
      assert u in Elements(order);
      var j :| 0 <= j < n && order[j] == u;
      assert back[i] in order[..j];
      var k :| 0 <= k < j && order[..j][k] == back[i];
      assert order[k] == order[n - 1 - i];
      assert back[..i][n - 1 - j] == u;
    }
  }

  method GetStartOrder(ps: seq<ProcessConfig>) returns (order: Option<seq<string>>)
    ensures order.Some? <==> DistinctNames(ps) && DependenciesDefined(ps) && !Cyclic(DependencyArcs(ps))
    ensures order.Some? ==> TopologicalOrder(Names(ps), DependencyArcs(ps), order.value)
  {
    order := TopologicalSort(ps, false);
    StartOrderExists(ps);
  }

  /** The stop order is the start order backwards; without a start order nothing is stopped. */
  method GetStopOrder(ps: seq<ProcessConfig>) returns (order: seq<string>)
    ensures SortSucceeds(ps, false) ==> TopologicalOrder(Orderable(ps, true), SortArcs(ps, true), order)
    ensures SortSucceeds(ps, false) ==> Elements(order) == Names(ps)
    ensures !SortSucceeds(ps, false) ==> order == []
  {
    var start := TopologicalSort(ps, false);
    var startOrder := if start.Some? then start.value else [];
    var n := |startOrder|;
    order := [];
    for i := 0 to n
      invariant |order| == i
      invariant forall k | 0 <= k < i :: order[k] == startOrder[n - 1 - k]
    {
      order := order + [startOrder[n - 1 - i]];
    }
    if start.Some? {
      StartOrderExists(ps);
      VerdictsCoincide(ps);
      DefinedNodes(ps, false);
      BackwardsIsReverseOrder(Names(ps), DependencyArcs(ps), startOrder, order);
    }
  }

  // ---- validation ----------------------------------------------------------------

  datatype ConfigError =
    | NoProcesses
    | EmptyName
    | EmptyCommand(name: string)
    | DuplicateName(name: string)
    | InvalidPolicy(name: string)
    | UndefinedDependency(name: string, dep: string)
    | InvalidLogFormat
    | InvalidLogLevel
    | CircularDependency

  /** What is wrong with process `i` in itself or against the earlier ones, if anything. */
  ghost predicate Faulty(ps: seq<ProcessConfig>, i: nat)
    requires i < |ps|
  {
    || ps[i].name == ""
    || ps[i].command == ""
    || ps[i].name in Names(ps[..i])
    || ps[i].restartPolicy !in POLICIES
    || exists d :: d in ps[i].dependsOn && d !in Names(ps)
  }

  ghost predicate FaultFree(ps: seq<ProcessConfig>, n: nat)
    requires n <= |ps|
  {
    forall i | 0 <= i < n :: !Faulty(ps, i)
  }

  ghost predicate ValidConfig(c: Config) {
    && c.processes != []
    && FaultFree(c.processes, |c.processes|)
    && c.logFormat in LOG_FORMATS
    && c.logLevel in LOG_LEVELS
    && !Cyclic(DependencyArcs(c.processes))
  }

  /** The first fault of process `i` is the one reported, in the order name, command, duplicate, policy, dependency. */
  ghost predicate Reported(ps: seq<ProcessConfig>, i: nat, e: ConfigError)
    requires i < |ps|
  {
    var p := ps[i];
    match e
    case EmptyName => p.name == ""
    case EmptyCommand(n) => p.name == n != "" && p.command == ""
    case DuplicateName(n) => p.name == n != "" && p.command != "" && n in Names(ps[..i])
    case InvalidPolicy(n) =>
      p.name == n != "" && p.command != "" && n !in Names(ps[..i]) && p.restartPolicy !in POLICIES
    case UndefinedDependency(n, d) =>
      && p.name == n != "" && p.command != "" && n !in Names(ps[..i]) && p.restartPolicy in POLICIES
      && exists k :: 0 <= k < |p.dependsOn| && p.dependsOn[k] == d && d !in Names(ps) &&
                     forall j | 0 <= j < k :: p.dependsOn[j] in Names(ps)
    case _ => false
  }

  /** The error is the first one in the order in which the checks are made. */
  ghost predicate FirstError(c: Config, e: ConfigError) {
    var ps := c.processes;
    match e
    case NoProcesses => ps == []
    case InvalidLogFormat => ps != [] && FaultFree(ps, |ps|) && c.logFormat !in LOG_FORMATS
    case InvalidLogLevel => ps != [] && FaultFree(ps, |ps|) && c.logFormat in LOG_FORMATS && c.logLevel !in LOG_LEVELS
    case CircularDependency =>
      && ps != [] && FaultFree(ps, |ps|) && c.logFormat in LOG_FORMATS && c.logLevel in LOG_LEVELS
      && Cyclic(DependencyArcs(ps))
    case _ => exists i: nat :: i < |ps| && FaultFree(ps, i) && Reported(ps, i, e)
  }

  lemma NamesOfPrefix(ps: seq<ProcessConfig>, i: nat)
    requires i < |ps|
    ensures Names(ps[..i + 1]) == Names(ps[..i]) + {ps[i].name}
    ensures Names(ps[..i + 1]) <= Names(ps)
  {
    assert NameList(ps[..i + 1]) == NameList(ps[..i]) + [ps[i].name];
    forall n | n in Names(ps[..i + 1]) ensures n in Names(ps) {
      var k := NameIndex(ps[..i + 1], n);
      NameMember(ps, k);
    }
  }

  lemma FaultFreeNames(ps: seq<ProcessConfig>)
    requires FaultFree(ps, |ps|)
    ensures DistinctNames(ps) && DependenciesDefined(ps)
  {
    forall i, j | 0 <= i < j < |ps| ensures NameList(ps)[i] != NameList(ps)[j] {
      assert !Faulty(ps, j);
      assert ps[..j][i] == ps[i];
      NameMember(ps[..j], i);
    }
    forall i, d | 0 <= i < |ps| && d in ps[i].dependsOn ensures d in Names(ps) {
      assert !Faulty(ps, i);
    }
  }

  method HasDependency(ps: seq<ProcessConfig>, name: string) returns (found: bool)
    ensures found <==> name in Names(ps)
  {
    for i := 0 to |ps|
      invariant forall j | 0 <= j < i :: ps[j].name != name
    {
      if ps[i].name == name {
        NameMember(ps, i);
        return true;
      }
    }
    if name in Names(ps) {
      var i := NameIndex(ps, name);
    }
    found := false;
  }

  /** The dependency loop of validation: the first undefined dependency, if any. */
  method FirstUndefined(ps: seq<ProcessConfig>, p: ProcessConfig, processNames: set<string>) returns (dep: Option<string>)
    requires processNames <= Names(ps)
    ensures dep.None? <==> forall d | d in p.dependsOn :: d in Names(ps)
    ensures dep.Some? ==> exists k :: 0 <= k < |p.dependsOn| && p.dependsOn[k] == dep.value && dep.value !in Names(ps) &&
                                      forall j | 0 <= j < k :: p.dependsOn[j] in Names(ps)
  {
    for k := 0 to |p.dependsOn|
      invariant forall j | 0 <= j < k :: p.dependsOn[j] in Names(ps)
    {
      var d := p.dependsOn[k];
      if d !in processNames {
        var found := HasDependency(ps, d);
        if !found {
          return Some(d);
        }
      }
    }
    dep := None;
  }

  method Validate(c: Config) returns (error: Option<ConfigError>)
    ensures error.None? <==> ValidConfig(c)
    ensures error.Some? ==> FirstError(c, error.value)
  {
    var ps := c.processes;
    if ps == [] {
      return Some(NoProcesses);
    }
    var processNames := {};
    for i := 0 to |ps|
      invariant FaultFree(ps, i)
      invariant processNames == Names(ps[..i])
    {
      var p := ps[i];
      NamesOfPrefix(ps, i);
      if p.name == "" {
        assert Faulty(ps, i) && Reported(ps, i, EmptyName);
        return Some(EmptyName);
      }
      if p.command == "" {
        assert Faulty(ps, i) && Reported(ps, i, EmptyCommand(p.name));
        return Some(EmptyCommand(p.name));
      }
      if p.name in processNames {
        assert Faulty(ps, i) && Reported(ps, i, DuplicateName(p.name));
        return Some(DuplicateName(p.name));
      }
      processNames := processNames + {p.name};
      if p.restartPolicy !in POLICIES {
        assert Faulty(ps, i) && Reported(ps, i, InvalidPolicy(p.name));
        return Some(InvalidPolicy(p.name));
      }
      var undefined := FirstUndefined(ps, p, processNames);
      if undefined.Some? {
        assert Faulty(ps, i) && Reported(ps, i, UndefinedDependency(p.name, undefined.value));
        return Some(UndefinedDependency(p.name, undefined.value));
      }
    }
    if c.logFormat !in LOG_FORMATS {
      return Some(InvalidLogFormat);
    }
    if c.logLevel !in LOG_LEVELS {
      return Some(InvalidLogLevel);
    }
    FaultFreeNames(ps);
    VerdictsCoincide(ps);
    var rejected := ValidateDependencies(ps);
    if rejected {
      return Some(CircularDependency);
    }
    error := None;
  }

  /** What validation buys: both orders exist and cover every process. */
  lemma ValidatedConfigStarts(c: Config)
    requires ValidConfig(c)
    ensures SortSucceeds(c.processes, false) && Orderable(c.processes, false) == Names(c.processes)
    ensures SortSucceeds(c.processes, true) && Orderable(c.processes, true) == Names(c.processes)
  {
    FaultFreeNames(c.processes);
    StartOrderExists(c.processes);
    VerdictsCoincide(c.processes);
  }
}
