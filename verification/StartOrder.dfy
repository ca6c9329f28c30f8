/**
 Start and stop orders: the queue-based topological sort over in-degree and
 adjacency maps. Repeated dependencies give repeated edges, so degrees count
 edges, not neighbours; the ready names are first collected by iterating over a
 map, so nothing may depend on the order of that iteration.
 */
module StartOrder {
  import opened Config
  import opened DependencyGraph
  import opened Wrappers

  type Edge = (string, string)

  // ---- the two maps as functions of an edge list -----------------------------

  /** Number of edges into `v` whose source is not in `done`. */
  ghost function Pending(es: seq<Edge>, done: set<string>, v: string): nat {
    if es == [] then 0
    else
      var e := es[|es| - 1];
      Pending(es[..|es| - 1], done, v) + (if e.1 == v && e.0 !in done then 1 else 0)
  }

  /** Targets of the edges out of `u`, in order. */
  ghost function Successors(es: seq<Edge>, u: string): seq<string> {
    if es == [] then []
    else
      var e := es[|es| - 1];
      Successors(es[..|es| - 1], u) + (if e.0 == u then [e.1] else [])
  }

  lemma {:induction false} PendingZero(es: seq<Edge>, done: set<string>, v: string)
    ensures Pending(es, done, v) == 0 <==> forall u | (u, v) in es :: u in done
  {
    if es != [] {
      var front, e := es[..|es| - 1], es[|es| - 1];
      PendingZero(front, done, v);
      assert es == front + [e];
    }
  }

  lemma {:induction false} SuccessorMember(es: seq<Edge>, u: string, v: string)
    ensures v in Successors(es, u) <==> (u, v) in es
  {
    if es != [] {
      var front, e := es[..|es| - 1], es[|es| - 1];
      SuccessorMember(front, u, v);
      assert es == front + [e];
    }
  }

  /** Finishing `u` settles as many edges into `v` as `v` occurs among its successors. */
  lemma {:induction false} PendingSettled(es: seq<Edge>, done: set<string>, u: string, v: string)
    requires u !in done
    ensures Pending(es, done, v) == Pending(es, done + {u}, v) + multiset(Successors(es, u))[v]
  {
    if es != [] {
      PendingSettled(es[..|es| - 1], done, u, v);
    }
  }

  lemma PendingSnoc(es: seq<Edge>, e: Edge, v: string)
    ensures Pending(es + [e], {}, v) == Pending(es, {}, v) + (if e.1 == v then 1 else 0)
  {
    assert (es + [e])[..|es|] == es;
  }

  lemma SuccessorsSnoc(es: seq<Edge>, e: Edge, u: string)
    ensures Successors(es + [e], u) == Successors(es, u) + (if e.0 == u then [e.1] else [])
  {
    assert (es + [e])[..|es|] == es;
  }

  // ---- what the sort has to achieve ------------------------------------------

  /** The nodes of the sort: every name, and in reverse mode every dependency too. */
  ghost function Nodes(ps: seq<ProcessConfig>, reverse: bool): set<string> {
    if reverse then Names(ps) + AllDependencies(ps) else Names(ps)
  }

  /** Its arcs: dependencies before dependents, or the other way round. */
  ghost function SortArcs(ps: seq<ProcessConfig>, reverse: bool): Arcs {
    if reverse then Flip(DependencyArcs(ps)) else DependencyArcs(ps)
  }

  /** The names that can be ordered at all. */
  ghost function Orderable(ps: seq<ProcessConfig>, reverse: bool): set<string> {
    Startable(Nodes(ps, reverse), SortArcs(ps, reverse))
  }

  ghost predicate SortSucceeds(ps: seq<ProcessConfig>, reverse: bool) {
    |Orderable(ps, reverse)| == |ps|
  }

  /** A permutation of `nodes` with every predecessor first. */
  ghost predicate TopologicalOrder(nodes: set<string>, arcs: Arcs, order: seq<string>) {
    && Distinct(order)
    && Elements(order) == nodes
    && PredecessorsFirst(arcs, order)
  }

  // ---- the sort ----------------------------------------------------------------

  function Lookup<V>(m: map<string, V>, k: string, default: V): V {
    if k in m then m[k] else default
  }

  ghost predicate DegreesOf(es: seq<Edge>, done: set<string>, inDegree: map<string, int>) {
    forall v {:trigger DegreeOf(es, done, inDegree, v)} | v in inDegree :: DegreeOf(es, done, inDegree, v)
  }

  ghost predicate DegreeOf(es: seq<Edge>, done: set<string>, inDegree: map<string, int>, v: string) {
    v in inDegree && inDegree[v] == Pending(es, done, v)
  }

  ghost predicate AdjacencyOf(es: seq<Edge>, graph: map<string, seq<string>>) {
    forall u {:trigger Lookup(graph, u, [])} :: Lookup(graph, u, []) == Successors(es, u)
  }

  /** The maps are the ones of the edge list `es`. */
  ghost predicate MapsOf(es: seq<Edge>, inDegree: map<string, int>, graph: map<string, seq<string>>) {
    && DegreesOf(es, {}, inDegree)
    && AdjacencyOf(es, graph)
    && forall e | e in es :: e.1 in inDegree
  }

  function EdgeFor(p: ProcessConfig, dep: string, reverse: bool): Edge {
    if reverse then (p.name, dep) else (dep, p.name)
  }

  ghost function ProcessEdges(p: ProcessConfig, k: nat, reverse: bool): seq<Edge>
    requires k <= |p.dependsOn|
  {
    seq(k, j requires 0 <= j < k => EdgeFor(p, p.dependsOn[j], reverse))
  }

  /** The edges in the order the sort adds them, repetitions included. */
  ghost function Edges(ps: seq<ProcessConfig>, reverse: bool): seq<Edge> {
    if ps == [] then []
    else
      var p := ps[|ps| - 1];
      Edges(ps[..|ps| - 1], reverse) + ProcessEdges(p, |p.dependsOn|, reverse)
  }

  lemma {:induction false} EdgeMember(ps: seq<ProcessConfig>, reverse: bool, u: string, v: string)
    ensures (u, v) in Edges(ps, reverse) <==> (if reverse then Lists(ps, u, v) else Lists(ps, v, u))
  {
    if ps != [] {
      var front, p := ps[..|ps| - 1], ps[|ps| - 1];
      var last := ProcessEdges(p, |p.dependsOn|, reverse);
      EdgeMember(front, reverse, u, v);
      var n, d := if reverse then u else v, if reverse then v else u;
      if p.name == n && d in p.dependsOn {
        var k :| 0 <= k < |p.dependsOn| && p.dependsOn[k] == d;
        assert last[k] == (u, v);
      }
      if Lists(front, n, d) {
        var i :| 0 <= i < |front| && front[i].name == n && d in front[i].dependsOn;
        assert ps[i] == front[i];
      }
      if Lists(ps, n, d) {
        var i :| 0 <= i < |ps| && ps[i].name == n && d in ps[i].dependsOn;
        assert i < |front| ==> front[i] == ps[i];
      }
    }
  }

  lemma EdgesAreArcs(ps: seq<ProcessConfig>, reverse: bool)
    ensures forall u, v :: (u, v) in Edges(ps, reverse) <==> (u, v) in SortArcs(ps, reverse)
    ensures forall u, v | (u, v) in SortArcs(ps, reverse) :: v in Nodes(ps, reverse)
  {
    forall u, v
      ensures (u, v) in Edges(ps, reverse) <==> (u, v) in SortArcs(ps, reverse)
      ensures (u, v) in SortArcs(ps, reverse) ==> v in Nodes(ps, reverse)
    {
      EdgeMember(ps, reverse, u, v);
      FlipMember(DependencyArcs(ps), u, v);
      DependencyArcMember(ps, u, v);
      DependencyArcMember(ps, v, u);
    }
  }

  /** Recording one more edge in the two maps. */
  lemma EdgeAdded(es: seq<Edge>, e: Edge, inDegree: map<string, int>, graph: map<string, seq<string>>)
    requires MapsOf(es, inDegree, graph)
    ensures MapsOf(es + [e], inDegree[e.1 := Lookup(inDegree, e.1, 0) + 1], graph[e.0 := Lookup(graph, e.0, []) + [e.1]])
  {
    var inDegree' := inDegree[e.1 := Lookup(inDegree, e.1, 0) + 1];
    var graph' := graph[e.0 := Lookup(graph, e.0, []) + [e.1]];
    PendingZero(es, {}, e.1);
    forall v | v in inDegree' ensures DegreeOf(es + [e], {}, inDegree', v) {
      assert v in inDegree ==> DegreeOf(es, {}, inDegree, v);
      PendingSnoc(es, e, v);
    }
    forall u ensures Lookup(graph', u, []) == Successors(es + [e], u) {
      SuccessorsSnoc(es, e, u);
      assert Lookup(graph, u, []) == Successors(es, u);
    }
  }

  method NoteNames(ps: seq<ProcessConfig>) returns (inDegree: map<string, int>, graph: map<string, seq<string>>)
    ensures inDegree.Keys == Names(ps) && MapsOf([], inDegree, graph)
  {
    inDegree, graph := map[], map[];
    for i := 0 to |ps|
      invariant inDegree.Keys == set j | 0 <= j < i :: ps[j].name
      invariant forall n | n in inDegree :: inDegree[n] == 0
      invariant forall n | n in graph :: graph[n] == []
    {
      inDegree := inDegree[ps[i].name := 0];
      graph := graph[ps[i].name := []];
    }
    assert inDegree.Keys == Names(ps) by {
      forall i | 0 <= i < |ps| ensures ps[i].name in Names(ps) {
        NameMember(ps, i);
      }
      forall n | n in Names(ps) ensures n in inDegree {
        var i := NameIndex(ps, n);
      }
    }
  }

  /** The targets noted for one process: its own name, or in reverse mode its dependencies. */
  ghost function Targets(p: ProcessConfig, reverse: bool): set<string> {
    TargetsUpTo(p, |p.dependsOn|, reverse)
  }

  ghost function TargetsUpTo(p: ProcessConfig, k: nat, reverse: bool): set<string>
    requires k <= |p.dependsOn|
  {
    if reverse then Elements(p.dependsOn[..k]) else {}
  }

  lemma ProcessEdgesGrow(es: seq<Edge>, p: ProcessConfig, k: nat, reverse: bool)
    requires k < |p.dependsOn|
    ensures es + ProcessEdges(p, k + 1, reverse) == es + ProcessEdges(p, k, reverse) + [EdgeFor(p, p.dependsOn[k], reverse)]
  {
  }

  lemma ProcessEdgeAdded(p: ProcessConfig, reverse: bool, k: nat, inDegree: map<string, int>,
                         graph: map<string, seq<string>>, es: seq<Edge>)
    requires k < |p.dependsOn| && MapsOf(es + ProcessEdges(p, k, reverse), inDegree, graph)
    ensures var e := EdgeFor(p, p.dependsOn[k], reverse);
      MapsOf(es + ProcessEdges(p, k + 1, reverse), inDegree[e.1 := Lookup(inDegree, e.1, 0) + 1],
             graph[e.0 := Lookup(graph, e.0, []) + [e.1]])
  {
    ProcessEdgesGrow(es, p, k, reverse);
    EdgeAdded(es + ProcessEdges(p, k, reverse), EdgeFor(p, p.dependsOn[k], reverse), inDegree, graph);
  }

  lemma TargetAdded(p: ProcessConfig, reverse: bool, k: nat, keys: set<string>)
    requires k < |p.dependsOn| && p.name in keys
    ensures keys + TargetsUpTo(p, k, reverse) + {EdgeFor(p, p.dependsOn[k], reverse).1} == keys + TargetsUpTo(p, k + 1, reverse)
  {
    assert p.dependsOn[..k + 1] == p.dependsOn[..k] + [p.dependsOn[k]];
  }

  ghost function AllTargets(ps: seq<ProcessConfig>, reverse: bool): set<string> {
    if ps == [] then {} else AllTargets(ps[..|ps| - 1], reverse) + Targets(ps[|ps| - 1], reverse)
  }

  lemma {:induction false} AllTargetsAre(ps: seq<ProcessConfig>, reverse: bool)
    ensures AllTargets(ps, reverse) == if reverse then AllDependencies(ps) else {}
  {
    if ps != [] {
      var front, p := ps[..|ps| - 1], ps[|ps| - 1];
      AllTargetsAre(front, reverse);
      if reverse {
        assert p.dependsOn[..|p.dependsOn|] == p.dependsOn;
        forall d | d in AllDependencies(ps) ensures d in AllDependencies(front) + Elements(p.dependsOn) {
          var i :| 0 <= i < |ps| && d in ps[i].dependsOn;
          assert i < |front| ==> front[i] == ps[i];
        }
        forall d | d in AllDependencies(front) ensures d in AllDependencies(ps) {
          var i :| 0 <= i < |front| && d in front[i].dependsOn;
          assert front[i] == ps[i];
        }
      }
    }
  }

  method AddProcess(p: ProcessConfig, reverse: bool, inDegree0: map<string, int>, graph0: map<string, seq<string>>, ghost es: seq<Edge>)
    returns (inDegree: map<string, int>, graph: map<string, seq<string>>)
    requires MapsOf(es, inDegree0, graph0) && p.name in inDegree0
    ensures MapsOf(es + ProcessEdges(p, |p.dependsOn|, reverse), inDegree, graph)
    ensures inDegree.Keys == inDegree0.Keys + Targets(p, reverse)
  {
    inDegree, graph := inDegree0, graph0;
    assert es + ProcessEdges(p, 0, reverse) == es;
    for k := 0 to |p.dependsOn|
      invariant MapsOf(es + ProcessEdges(p, k, reverse), inDegree, graph)
      invariant inDegree.Keys == inDegree0.Keys + TargetsUpTo(p, k, reverse)
    {
      var e := EdgeFor(p, p.dependsOn[k], reverse);
      ProcessEdgeAdded(p, reverse, k, inDegree, graph, es);
      TargetAdded(p, reverse, k, inDegree0.Keys);
      graph := graph[e.0 := Lookup(graph, e.0, []) + [e.1]];
      inDegree := inDegree[e.1 := Lookup(inDegree, e.1, 0) + 1];
    }
  }

  method BuildGraph(ps: seq<ProcessConfig>, reverse: bool)
    returns (inDegree: map<string, int>, graph: map<string, seq<string>>)
    ensures inDegree.Keys == Nodes(ps, reverse)
    ensures MapsOf(Edges(ps, reverse), inDegree, graph)
  {
    inDegree, graph := NoteNames(ps);
    for i := 0 to |ps|
      invariant inDegree.Keys == Names(ps) + AllTargets(ps[..i], reverse)
      invariant MapsOf(Edges(ps[..i], reverse), inDegree, graph)
    {
      NameMember(ps, i);
      assert ps[..i + 1][..i] == ps[..i];
      inDegree, graph := AddProcess(ps[i], reverse, inDegree, graph, Edges(ps[..i], reverse));
    }
    assert ps[..|ps|] == ps;
    AllTargetsAre(ps, reverse);
  }

  // ---- draining the queue ------------------------------------------------------

  /**
   The queue between two rounds: `result` and `queue` together are the nodes
   whose predecessors are all in `result`.
   */
  ghost predicate Draining(nodes: set<string>, es: seq<Edge>, inDegree: map<string, int>, queue: seq<string>, result: seq<string>) {
    && inDegree.Keys == nodes
    && Distinct(result + queue) && Elements(result + queue) <= nodes
    && DegreesOf(es, Elements(result), inDegree)
    && (forall v | v in nodes :: v in result + queue <==> inDegree[v] == 0)
    && PredecessorsFirst(Elements(es), result)
  }

  /**
   Within a round: `current` has been appended to the result, and the degrees
   of its first `k` successors have been lowered.
   */
  ghost predicate Relaxing(nodes: set<string>, es: seq<Edge>, inDegree: map<string, int>, queue: seq<string>,
                           result: seq<string>, current: string, k: nat)
  {
    && inDegree.Keys == nodes
    && Distinct(result + [current] + queue) && Elements(result + [current] + queue) <= nodes
    && k <= |Successors(es, current)|
    && (forall v | v in nodes :: inDegree[v] == Pending(es, Elements(result), v) - multiset(Successors(es, current)[..k])[v])
    && (forall v | v in nodes :: v in result + [current] + queue <==> inDegree[v] == 0)
  }

  lemma RoundBegins(nodes: set<string>, es: seq<Edge>, inDegree: map<string, int>, queue: seq<string>, result: seq<string>)
    requires Draining(nodes, es, inDegree, queue, result) && queue != []
    ensures Relaxing(nodes, es, inDegree, queue[1..], result, queue[0], 0)
  {
    assert result + queue == result + [queue[0]] + queue[1..];
    forall v | v in nodes ensures inDegree[v] == Pending(es, Elements(result), v) {
      assert DegreeOf(es, Elements(result), inDegree, v);
    }
  }

  lemma RoundMoves(nodes: set<string>, es: seq<Edge>, inDegree: map<string, int>, queue: seq<string>,
                   result: seq<string>, current: string, k: nat)
    requires Relaxing(nodes, es, inDegree, queue, result, current, k) && current !in result
    requires k < |Successors(es, current)| && Successors(es, current)[k] in nodes
    ensures var n := Successors(es, current)[k];
      var queue' := if inDegree[n] - 1 == 0 then queue + [n] else queue;
      Relaxing(nodes, es, inDegree[n := inDegree[n] - 1], queue', result, current, k + 1)
  {
    var ns := Successors(es, current);
    var n := ns[k];
    assert ns[..k + 1] == ns[..k] + [n];
    StillPending(es, Elements(result), current, k);
    assert inDegree[n] >= 1;
    var all := result + [current] + queue;
    assert result + [current] + (queue + [n]) == all + [n];
    assert Elements(all + [n]) == Elements(all) + {n};
  }

  /** A successor not yet relaxed still has an edge pending. */
  lemma StillPending(es: seq<Edge>, done: set<string>, u: string, k: nat)
    requires u !in done && k < |Successors(es, u)|
    ensures var ns := Successors(es, u);
      Pending(es, done, ns[k]) > multiset(ns[..k])[ns[k]]
  {
    var ns := Successors(es, u);
    assert ns == ns[..k] + [ns[k]] + ns[k + 1..];
    PendingSettled(es, done, u, ns[k]);
  }

  lemma RoundEnds(nodes: set<string>, es: seq<Edge>, inDegree: map<string, int>, queue: seq<string>,
                  result: seq<string>, current: string)
    requires Relaxing(nodes, es, inDegree, queue, result, current, |Successors(es, current)|)
    requires PredecessorsFirst(Elements(es), result)
    requires current !in result && Pending(es, Elements(result), current) == 0
    ensures Draining(nodes, es, inDegree, queue, result + [current])
  {
    var ns := Successors(es, current);
    assert ns[..|ns|] == ns;
    assert Elements(result + [current]) == Elements(result) + {current};
    forall v | v in nodes ensures DegreeOf(es, Elements(result + [current]), inDegree, v) {
      PendingSettled(es, Elements(result), current, v);
    }
    PendingZero(es, Elements(result), current);
    var longer := result + [current];
    forall i, u | 0 <= i < |longer| && (u, longer[i]) in Elements(es) ensures u in longer[..i] {
      if i < |result| {
        assert longer[..i] == result[..i];
      } else {
        assert longer[..i] == result;
      }
    }
  }

  lemma DrainedIsMaximal(nodes: set<string>, es: seq<Edge>, inDegree: map<string, int>, result: seq<string>)
    requires Draining(nodes, es, inDegree, [], result)
    ensures Distinct(result) && PredecessorsFirst(Elements(es), result)
    ensures Elements(result) == Startable(nodes, Elements(es))
  {
    assert result + [] == result;
    forall v | v in nodes && v !in result ensures Waits(Elements(es), result, v) {
      assert DegreeOf(es, Elements(result), inDegree, v);
      PendingZero(es, Elements(result), v);
      var u :| (u, v) in es && u !in result;
      assert (u, v) in Elements(es);
    }
    MaximalOrderIsStartable(nodes, Elements(es), result);
  }

  method CollectReady(inDegree: map<string, int>) returns (queue: seq<string>)
    ensures Distinct(queue)
    ensures forall v :: v in queue <==> v in inDegree && inDegree[v] == 0
  {
    queue := [];
    var remaining := inDegree.Keys;
    while remaining != {}
      invariant remaining <= inDegree.Keys && Distinct(queue)
      invariant forall v :: v in queue <==> v in inDegree && v !in remaining && inDegree[v] == 0
      decreases remaining
    {
      var name :| name in remaining;
      remaining := remaining - {name};
      if inDegree[name] == 0 {
        queue := queue + [name];
      }
    }
  }

  /** The inner loop: lowers the degrees of the neighbours and queues those that become ready. */
  method Relax(neighbours: seq<string>, inDegree0: map<string, int>, queue0: seq<string>,
               ghost es: seq<Edge>, ghost result: seq<string>, ghost current: string)
    returns (inDegree: map<string, int>, queue: seq<string>)
    requires neighbours == Successors(es, current) && current !in result
    requires forall n | n in neighbours :: n in inDegree0
    requires Relaxing(inDegree0.Keys, es, inDegree0, queue0, result, current, 0)
    ensures Relaxing(inDegree0.Keys, es, inDegree, queue, result, current, |neighbours|)
  {
    inDegree, queue := inDegree0, queue0;
    for k := 0 to |neighbours|
      invariant Relaxing(inDegree0.Keys, es, inDegree, queue, result, current, k)
    {
      var n := neighbours[k];
      RoundMoves(inDegree0.Keys, es, inDegree, queue, result, current, k);
      inDegree := inDegree[n := inDegree[n] - 1];
      if inDegree[n] == 0 {
        queue := queue + [n];
      }
    }
  }

  method Drain(inDegree0: map<string, int>, graph: map<string, seq<string>>, ghost es: seq<Edge>) returns (result: seq<string>)
    requires MapsOf(es, inDegree0, graph)
    ensures Distinct(result) && PredecessorsFirst(Elements(es), result)
    ensures Elements(result) == Startable(inDegree0.Keys, Elements(es))
  {
    var inDegree := inDegree0;
    ghost var nodes := inDegree.Keys;
    var queue := CollectReady(inDegree);
    result := [];
    assert [] + queue == queue && Elements<string>([]) == {};
    while queue != []
      invariant Draining(nodes, es, inDegree, queue, result)
      decreases nodes - Elements(result)
    {
      var current := queue[0];
      ghost var before := result;
      RoundBegins(nodes, es, inDegree, queue, before);
      CurrentIsReady(nodes, es, inDegree, queue, before);
      assert Lookup(graph, current, []) == Successors(es, current);
      forall n | n in Successors(es, current) ensures n in nodes {
        SuccessorMember(es, current, n);
        assert (current, n) in es;
      }
      queue := queue[1..];
      result := result + [current];
      inDegree, queue := Relax(Lookup(graph, current, []), inDegree, queue, es, before, current);
      RoundEnds(nodes, es, inDegree, queue, before, current);
    }
    DrainedIsMaximal(nodes, es, inDegree, result);
  }

  lemma CurrentIsReady(nodes: set<string>, es: seq<Edge>, inDegree: map<string, int>, queue: seq<string>, result: seq<string>)
    requires Draining(nodes, es, inDegree, queue, result) && queue != []
    ensures queue[0] in nodes && queue[0] !in result && Pending(es, Elements(result), queue[0]) == 0
    ensures nodes - Elements(result + [queue[0]]) < nodes - Elements(result)
  {
    var all := result + queue;
    assert all[|result|] == queue[0];
    assert queue[0] in Elements(all);
    assert DegreeOf(es, Elements(result), inDegree, queue[0]);
    forall i | 0 <= i < |result| ensures result[i] != queue[0] {
      assert all[i] != all[|result|];
    }
    assert Elements(result + [queue[0]]) == Elements(result) + {queue[0]};
    assert queue[0] in nodes - Elements(result);
  }

  /**
   The topological sort, for any list of processes. It succeeds exactly when as
   many names can be ordered as there are process entries, and then returns
   those names, predecessors first.
   */
  method TopologicalSort(ps: seq<ProcessConfig>, reverse: bool) returns (order: Option<seq<string>>)
    ensures order.Some? <==> SortSucceeds(ps, reverse)
    ensures order.Some? ==> TopologicalOrder(Orderable(ps, reverse), SortArcs(ps, reverse), order.value)
  {
    var inDegree, graph := BuildGraph(ps, reverse);
    ghost var es := Edges(ps, reverse);
    var result := Drain(inDegree, graph, es);
    EdgesAreArcs(ps, reverse);
    assert Elements(es) == SortArcs(ps, reverse);
    DistinctSize(result);
    if |result| != |ps| {
      return None;
    }
    return Some(result);
  }
}
