/**
 The depth-first cycle check that guards start-up. It runs on a map from names
 to the last process entry carrying that name, marks names as visited, and
 keeps a recursion stack. Two facts about it are worth knowing: a name without
 a process entry stays on the recursion stack for good, and the check gives the
 same verdict whatever order the process map is iterated in.
 */
module CycleCheck {
  import opened Config
  import opened DependencyGraph
  import opened Wrappers

  /** One entry of one dependency list: process name and position. */
  type Occurrence = (string, nat)

  /** `m` sends every name to the last entry that carries it. */
  ghost predicate LastIndexMap(ps: seq<ProcessConfig>, m: map<string, nat>) {
    && (forall n | n in m :: m[n] < |ps| && ps[m[n]].name == n)
    && (forall i | 0 <= i < |ps| :: ps[i].name in m && i <= m[ps[i].name])
  }

  ghost predicate IsLast(ps: seq<ProcessConfig>, i: nat) {
    && i < |ps|
    && forall j | i < j < |ps| :: ps[j].name != ps[i].name
  }

  /** `dep` is listed by the last entry called `n`. */
  ghost predicate EffectivelyLists(ps: seq<ProcessConfig>, n: string, dep: string) {
    exists i: nat :: IsLast(ps, i) && ps[i].name == n && dep in ps[i].dependsOn
  }

  ghost function EffectiveArcs(ps: seq<ProcessConfig>): Arcs {
    set n, d | n in Names(ps) && d in AllDependencies(ps) && EffectivelyLists(ps, n, d) :: (d, n)
  }

  /** The position `k` in the last entry `i`, naming something no process is called. */
  ghost predicate UndefinedAt(ps: seq<ProcessConfig>, i: nat, k: nat) {
    && IsLast(ps, i)
    && k < |ps[i].dependsOn|
    && ps[i].dependsOn[k] !in Names(ps)
  }

  /** Some undefined name occurs at two places in the effective dependency lists. */
  ghost predicate UndefinedRepeated(ps: seq<ProcessConfig>) {
    exists i: nat, k: nat, j: nat, l: nat ::
      && UndefinedAt(ps, i, k)
      && UndefinedAt(ps, j, l)
      && (i, k) != (j, l)
      && ps[i].dependsOn[k] == ps[j].dependsOn[l]
  }

  /** What the check reports, for any list of processes. */
  ghost predicate Rejects(ps: seq<ProcessConfig>) {
    Cyclic(EffectiveArcs(ps)) || UndefinedRepeated(ps)
  }

  /**
   The state of a search: the two maps the check keeps, and beside them the
   names under examination (innermost first), the names finished, in order, how
   many dependencies of each name have been dealt with, and the entry at which
   each undefined name was met.
   */
  datatype Search = Search(
    visited: set<string>,
    recStack: map<string, bool>,
    path: seq<string>,
    finished: seq<string>,
    progress: map<string, nat>,
    origin: map<string, Occurrence>)
  {
    predicate OnStack(n: string) {
      n in recStack && recStack[n]
    }
  }

  const BLANK := Search({}, map[], [], [], map[], map[])

  ghost function Deps(ps: seq<ProcessConfig>, m: map<string, nat>, n: string): seq<string> {
    if n in m && m[n] < |ps| then ps[m[n]].dependsOn else []
  }

  ghost function Universe(ps: seq<ProcessConfig>, m: map<string, nat>): set<string> {
    m.Keys + AllDependencies(ps)
  }

  ghost predicate Resolves(ps: seq<ProcessConfig>, m: map<string, nat>, o: Occurrence, dep: string) {
    && o.1 < |Deps(ps, m, o.0)|
    && Deps(ps, m, o.0)[o.1] == dep
  }

  /** The marks agree with the path and the finishing order. */
  ghost predicate Colours(m: map<string, nat>, s: Search) {
    && Distinct(s.path) && Distinct(s.finished)
    && forall n {:trigger Coloured(m, s, n)} :: Coloured(m, s, n)
  }

  ghost predicate Coloured(m: map<string, nat>, s: Search, n: string) {
    && (n in s.path ==> n !in s.finished && n in m)
    && (n in s.recStack ==> n in s.visited)
    && (n in s.visited <==> n in s.path || n in s.finished)
    && (n in s.visited ==> (s.OnStack(n) <==> (n in s.path || n !in m)))
  }

  /** The path is a walk, and finished names come after their dependencies. */
  ghost predicate Ordered(ps: seq<ProcessConfig>, s: Search) {
    && (s.path == [] || Walk(EffectiveArcs(ps), s.path))
    && PredecessorsFirst(EffectiveArcs(ps), s.finished)
  }

  /** Every visited undefined name was met at exactly one of the entries dealt with. */
  ghost predicate Accounted(ps: seq<ProcessConfig>, m: map<string, nat>, s: Search) {
    && (forall n {:trigger Measured(ps, m, s, n)} :: Measured(ps, m, s, n))
    && (forall n {:trigger EntriesMet(ps, m, s, n)} | n in s.progress :: EntriesMet(ps, m, s, n))
    && (forall x {:trigger OriginKnown(ps, m, s, x)} | x in s.visited && x !in m :: OriginKnown(ps, m, s, x))
  }

  ghost predicate Measured(ps: seq<ProcessConfig>, m: map<string, nat>, s: Search, n: string) {
    && (n in s.progress || n in s.origin ==> n in s.visited)
    && (n in s.visited && n in m ==> n in s.progress)
    && (n in s.finished && n in s.progress ==> s.progress[n] == |Deps(ps, m, n)|)
  }

  ghost predicate EntriesMet(ps: seq<ProcessConfig>, m: map<string, nat>, s: Search, n: string) {
    && n in s.progress
    && s.progress[n] <= |Deps(ps, m, n)|
    && forall k | 0 <= k < s.progress[n] ::
      Deps(ps, m, n)[k] in s.visited && MetOnce(m, s, (n, k), Deps(ps, m, n)[k])
  }

  ghost predicate MetOnce(m: map<string, nat>, s: Search, o: Occurrence, dep: string) {
    dep in m || (dep in s.origin && s.origin[dep] == o)
  }

  ghost predicate OriginKnown(ps: seq<ProcessConfig>, m: map<string, nat>, s: Search, x: string) {
    && x in s.origin
    && Resolves(ps, m, s.origin[x], x)
    && s.origin[x].0 in s.progress
    && s.origin[x].1 < s.progress[s.origin[x].0]
  }

  ghost predicate Valid(ps: seq<ProcessConfig>, m: map<string, nat>, s: Search) {
    && LastIndexMap(ps, m)
    && s.visited <= Universe(ps, m)
    && Colours(m, s)
    && Ordered(ps, s)
    && Accounted(ps, m, s)
  }

  /** The innermost name is about to deal with its `k`-th dependency, `dep`. */
  ghost predicate AtEntry(ps: seq<ProcessConfig>, m: map<string, nat>, s: Search, k: nat, dep: string) {
    && s.path != []
    && Resolves(ps, m, (s.path[0], k), dep)
    && s.path[0] in s.progress
    && s.progress[s.path[0]] == k
  }

  /** `t` is a later state with the same path, reached through the entry `from` of the innermost name. */
  ghost predicate Later(s: Search, t: Search, from: Option<nat>) {
    && s.visited <= t.visited && s.progress.Keys <= t.progress.Keys
    && (forall n | n in s.finished :: n in t.finished)
    && (forall n | n in s.progress :: t.progress[n] == Advance(s, from)[n])
  }

  /** The entry through which a search was entered counts as dealt with. */
  ghost function Advance(s: Search, from: Option<nat>): (progress: map<string, nat>)
    ensures s.progress.Keys <= progress.Keys
  {
    if from.Some? && s.path != [] then s.progress[s.path[0] := from.value + 1] else s.progress
  }

  // ---- the graph and the process map ----------------------------------------

  lemma DepsAreArcs(ps: seq<ProcessConfig>, m: map<string, nat>, n: string, d: string)
    requires LastIndexMap(ps, m)
    ensures d in Deps(ps, m, n) <==> (d, n) in EffectiveArcs(ps)
    ensures d in Deps(ps, m, n) ==> d in AllDependencies(ps)
  {
    if d in Deps(ps, m, n) {
      var i := m[n];
      NameMember(ps, i);
      assert IsLast(ps, i);
    }
    if EffectivelyLists(ps, n, d) {
      var i: nat :| IsLast(ps, i) && ps[i].name == n && d in ps[i].dependsOn;
      assert m[n] == i;
    }
  }

  lemma KeysAreNames(ps: seq<ProcessConfig>, m: map<string, nat>)
    requires LastIndexMap(ps, m)
    ensures m.Keys == Names(ps)
  {
    forall n | n in m ensures n in Names(ps) {
      NameMember(ps, m[n]);
    }
    forall n | n in Names(ps) ensures n in m {
      var i := NameIndex(ps, n);
    }
  }

  /** Later states of an inner search are later states of the outer one. */
  lemma LaterInside(s: Search, here: Search, t: Search, from: Option<nat>, k: nat)
    requires Later(s, here, from) && Later(here, t, Some(k))
    requires here.path != [] && here.path[0] !in s.progress
    ensures Later(s, t, from)
  {
  }

  // ---- the steps of the search ------------------------------------------------

  /** The innermost name's progress may move from `k` to `k + 1`; nothing else is lost. */
  ghost predicate Grows(ps: seq<ProcessConfig>, m: map<string, nat>, s: Search, t: Search) {
    && s.visited <= t.visited
    && (forall x | x in s.origin :: x in t.origin && t.origin[x] == s.origin[x])
    && (forall n | n in s.progress :: n in t.progress && s.progress[n] <= t.progress[n])
  }

  lemma EntriesKept(ps: seq<ProcessConfig>, m: map<string, nat>, s: Search, t: Search, n: string)
    requires EntriesMet(ps, m, s, n) && Grows(ps, m, s, t) && t.progress[n] == s.progress[n]
    ensures EntriesMet(ps, m, t, n)
  {
  }

  lemma EntryAdded(ps: seq<ProcessConfig>, m: map<string, nat>, s: Search, t: Search, k: nat, dep: string)
    requires AtEntry(ps, m, s, k, dep) && EntriesMet(ps, m, s, s.path[0])
    requires Grows(ps, m, s, t) && t.progress[s.path[0]] == k + 1
    requires dep in t.visited && MetOnce(m, t, (s.path[0], k), dep)
    ensures EntriesMet(ps, m, t, s.path[0])
  {
  }

  lemma OriginKept(ps: seq<ProcessConfig>, m: map<string, nat>, s: Search, t: Search, x: string)
    requires OriginKnown(ps, m, s, x) && Grows(ps, m, s, t)
    ensures OriginKnown(ps, m, t, x)
  {
  }

  /** One step from a state that is accounted for, whatever it does to the path. */
  lemma StepAccounted(ps: seq<ProcessConfig>, m: map<string, nat>, s: Search, t: Search, from: Option<nat>, dep: string)
    requires Accounted(ps, m, s) && Grows(ps, m, s, t)
    requires t.visited <= s.visited + {dep}
    requires from.Some? ==> AtEntry(ps, m, s, from.value, dep) && MetOnce(m, t, (s.path[0], from.value), dep)
    requires from.Some? ==> dep in t.visited
    requires forall n | n in s.progress :: t.progress[n] == Advance(s, from)[n]
    ensures forall n {:trigger EntriesMet(ps, m, t, n)} | n in s.progress :: EntriesMet(ps, m, t, n)
    ensures forall x {:trigger OriginKnown(ps, m, t, x)} | x in s.visited && x !in m :: OriginKnown(ps, m, t, x)
  {
    forall n | n in s.progress ensures EntriesMet(ps, m, t, n) {
      assert EntriesMet(ps, m, s, n);
      if from.Some? && n == s.path[0] {
        EntryAdded(ps, m, s, t, from.value, dep);
      } else {
        EntriesKept(ps, m, s, t, n);
      }
    }
    forall x | x in s.visited && x !in m ensures OriginKnown(ps, m, t, x) {
      OriginKept(ps, m, s, t, x);
    }
  }

  /** Visiting a name no process is called: it is done at once but stays on the stack. */
  ghost function VisitUndefined(s: Search, name: string, k: nat): Search
    requires s.path != []
  {
    Search(s.visited + {name}, s.recStack[name := true], s.path, s.finished + [name],
           Advance(s, Some(k)), s.origin[name := (s.path[0], k)])
  }

  lemma VisitUndefinedValid(ps: seq<ProcessConfig>, m: map<string, nat>, s: Search, name: string, k: nat)
    requires Valid(ps, m, s) && name !in s.visited && name !in m
    requires AtEntry(ps, m, s, k, name)
    ensures Examined(ps, m, s, Some(k), name, VisitUndefined(s, name, k))
  {
    var t := VisitUndefined(s, name, k);
    assert Coloured(m, s, s.path[0]) && Measured(ps, m, s, name);
    assert Accounted(ps, m, t) by {
      StepAccounted(ps, m, s, t, Some(k), name);
      forall n ensures Measured(ps, m, t, n) {
        assert Measured(ps, m, s, n);
      }
    }
    assert Colours(m, t) by {
      VisitUndefinedColours(m, s, name, k);
    }
    DepsAreArcs(ps, m, s.path[0], name);
    FinishOrdered(ps, m, s.finished, name);
  }

  lemma VisitUndefinedColours(m: map<string, nat>, s: Search, name: string, k: nat)
    requires Colours(m, s) && name !in s.visited && name !in m && s.path != []
    ensures Colours(m, VisitUndefined(s, name, k))
  {
    assert Coloured(m, s, name);
    forall n ensures Coloured(m, VisitUndefined(s, name, k), n) {
      assert Coloured(m, s, n);
    }
  }

  lemma FinishOrdered(ps: seq<ProcessConfig>, m: map<string, nat>, finished: seq<string>, name: string)
    requires LastIndexMap(ps, m) && PredecessorsFirst(EffectiveArcs(ps), finished)
    requires forall d | d in Deps(ps, m, name) :: d in finished
    ensures PredecessorsFirst(EffectiveArcs(ps), finished + [name])
  {
    var longer := finished + [name];
    forall i, u | 0 <= i < |longer| && (u, longer[i]) in EffectiveArcs(ps) ensures u in longer[..i] {
      if i < |finished| {
        assert (u, finished[i]) in EffectiveArcs(ps);
        assert longer[..i] == finished[..i];
      } else {
        DepsAreArcs(ps, m, name, u);
        assert longer[..i] == finished;
      }
    }
  }

  /** Starting on a name that has a process entry. */
  ghost function Enter(s: Search, name: string, from: Option<nat>): Search {
    Search(s.visited + {name}, s.recStack[name := true], [name] + s.path, s.finished,
           Advance(s, from)[name := 0], s.origin)
  }

  lemma EnterValid(ps: seq<ProcessConfig>, m: map<string, nat>, s: Search, name: string, from: Option<nat>)
    requires Valid(ps, m, s) && name !in s.visited && name in m
    requires from.None? ==> s.path == []
    requires from.Some? ==> AtEntry(ps, m, s, from.value, name)
    ensures Valid(ps, m, Enter(s, name, from))
    ensures Later(s, Enter(s, name, from), from)
  {
    var t := Enter(s, name, from);
    assert Coloured(m, s, name) && Measured(ps, m, s, name);
    assert Accounted(ps, m, t) by {
      StepAccounted(ps, m, s, t, from, name);
      assert EntriesMet(ps, m, t, name);
      forall n ensures Measured(ps, m, t, n) {
        assert Coloured(m, s, n) && Measured(ps, m, s, n);
      }
    }
    assert Colours(m, t) by {
      EnterColours(m, s, name, from);
    }
    if from.Some? {
      DepsAreArcs(ps, m, s.path[0], name);
      ExtendWalk(EffectiveArcs(ps), name, s.path);
    }
  }

  lemma EnterColours(m: map<string, nat>, s: Search, name: string, from: Option<nat>)
    requires Colours(m, s) && name !in s.visited && name in m
    ensures Colours(m, Enter(s, name, from))
  {
    assert Coloured(m, s, name);
    forall n ensures Coloured(m, Enter(s, name, from), n) {
      assert Coloured(m, s, n);
    }
  }

  lemma ExtendWalk(arcs: Arcs, u: string, p: seq<string>)
    requires Walk(arcs, p) && (u, p[0]) in arcs
    ensures Walk(arcs, [u] + p)
  {
    var q := [u] + p;
    forall i | 0 <= i < |q| - 1 ensures (q[i], q[i + 1]) in arcs {
      if i > 0 {
        assert (p[i - 1], p[i - 1 + 1]) in arcs;
      }
    }
  }

  /** Passing over an entry whose name is already finished. */
  ghost function Skip(s: Search, k: nat): Search {
    s.(progress := Advance(s, Some(k)))
  }

  lemma SkipValid(ps: seq<ProcessConfig>, m: map<string, nat>, s: Search, k: nat, dep: string)
    requires Valid(ps, m, s) && AtEntry(ps, m, s, k, dep)
    requires dep in s.visited && !s.OnStack(dep)
    ensures Examined(ps, m, s, Some(k), dep, Skip(s, k))
  {
    var t := Skip(s, k);
    assert Coloured(m, s, dep);
    assert Accounted(ps, m, t) by {
      StepAccounted(ps, m, s, t, Some(k), dep);
      forall n ensures Measured(ps, m, t, n) {
        assert Coloured(m, s, n) && Measured(ps, m, s, n);
      }
    }
    forall n ensures Coloured(m, t, n) {
      assert Coloured(m, s, n);
    }
  }

  /** Leaving a name all of whose dependencies are finished. */
  ghost function Leave(s: Search): Search
    requires s.path != []
  {
    s.(path := s.path[1..], finished := s.finished + [s.path[0]], recStack := s.recStack[s.path[0] := false])
  }

  lemma LeaveValid(ps: seq<ProcessConfig>, m: map<string, nat>, s: Search)
    requires Valid(ps, m, s) && s.path != []
    requires s.path[0] in s.progress && s.progress[s.path[0]] == |Deps(ps, m, s.path[0])|
    requires forall d | d in Deps(ps, m, s.path[0]) :: d in s.finished
    ensures Valid(ps, m, Leave(s))
  {
    var name, t := s.path[0], Leave(s);
    assert name in s.path;
    assert Accounted(ps, m, t) by {
      StepAccounted(ps, m, s, t, None, name);
      forall n ensures Measured(ps, m, t, n) {
        assert Measured(ps, m, s, n);
      }
    }
    assert Colours(m, t) by {
      LeaveColours(m, s);
    }
    if t.path != [] {
      ShortenWalk(EffectiveArcs(ps), s.path);
    }
    FinishOrdered(ps, m, s.finished, name);
  }

  lemma LeaveColours(m: map<string, nat>, s: Search)
    requires Colours(m, s) && s.path != []
    ensures Colours(m, Leave(s))
  {
    assert s.path == [s.path[0]] + s.path[1..];
    assert Coloured(m, s, s.path[0]);
    forall n ensures Coloured(m, Leave(s), n) {
      assert Coloured(m, s, n);
    }
  }

  lemma ShortenWalk(arcs: Arcs, p: seq<string>)
    requires Walk(arcs, p) && |p| >= 2
    ensures Walk(arcs, p[1..])
  {
    forall i | 0 <= i < |p[1..]| - 1 ensures (p[1..][i], p[1..][i + 1]) in arcs {
      assert (p[i + 1], p[i + 1 + 1]) in arcs;
    }
  }

  /** Meeting a name that is still on the stack is always a reason to reject. */
  lemma StackHit(ps: seq<ProcessConfig>, m: map<string, nat>, s: Search, k: nat, dep: string)
    requires Valid(ps, m, s) && AtEntry(ps, m, s, k, dep)
    requires dep in s.visited && s.OnStack(dep)
    ensures Rejects(ps)
  {
    assert Coloured(m, s, dep);
    if dep in s.path {
      DepsAreArcs(ps, m, s.path[0], dep);
      CloseCycle(EffectiveArcs(ps), s.path, dep);
    } else {
      assert OriginKnown(ps, m, s, dep);
      RepeatedAt(ps, m, (s.path[0], k), s.origin[dep], dep);
    }
  }

  lemma CloseCycle(arcs: Arcs, path: seq<string>, dep: string)
    requires Walk(arcs, path) && dep in path && (dep, path[0]) in arcs
    ensures Cyclic(arcs)
  {
    var j :| 0 <= j < |path| && path[j] == dep;
    var c := [dep] + path[..j + 1];
    forall i | 0 <= i < |c| - 1 ensures (c[i], c[i + 1]) in arcs {
      if i > 0 {
        assert (path[i - 1], path[i - 1 + 1]) in arcs;
      }
    }
    assert Cycle(arcs, c);
  }

  lemma RepeatedAt(ps: seq<ProcessConfig>, m: map<string, nat>, o: Occurrence, o': Occurrence, dep: string)
    requires LastIndexMap(ps, m) && o != o' && dep !in m
    requires Resolves(ps, m, o, dep) && Resolves(ps, m, o', dep)
    ensures UndefinedRepeated(ps)
  {
    KeysAreNames(ps, m);
    var i, j := m[o.0], m[o'.0];
    assert UndefinedAt(ps, i, o.1) && UndefinedAt(ps, j, o'.1);
    assert (i, o.1) != (j, o'.1);
  }

  /** Once every name is finished, there is nothing to reject. */
  lemma AllFinished(ps: seq<ProcessConfig>, m: map<string, nat>, s: Search)
    requires Valid(ps, m, s) && s.path == [] && m.Keys <= s.visited
    ensures !Rejects(ps)
  {
    KeysAreNames(ps, m);
    forall n | n in s.visited ensures n in s.finished && (n in m ==> n in s.progress && s.progress[n] == |Deps(ps, m, n)|) {
      assert Coloured(m, s, n) && Measured(ps, m, s, n);
    }
    assert forall a | a in EffectiveArcs(ps) :: a.1 in s.finished;
    OrderedAcyclic(EffectiveArcs(ps), s.finished);
    forall i: nat, k: nat, j: nat, l: nat |
      UndefinedAt(ps, i, k) && UndefinedAt(ps, j, l) && ps[i].dependsOn[k] == ps[j].dependsOn[l]
      ensures (i, k) == (j, l)
    {
      NameMember(ps, i);
      NameMember(ps, j);
      assert m[ps[i].name] == i && m[ps[j].name] == j;
      assert EntriesMet(ps, m, s, ps[i].name) && EntriesMet(ps, m, s, ps[j].name);
      assert MetOnce(m, s, (ps[i].name, k), Deps(ps, m, ps[i].name)[k]);
      assert MetOnce(m, s, (ps[j].name, l), Deps(ps, m, ps[j].name)[l]);
    }
  }

  /** While only defined names have been met, the recursion stack is exactly the current path. */
  lemma StackIsPath(ps: seq<ProcessConfig>, m: map<string, nat>, s: Search)
    requires Valid(ps, m, s) && s.visited <= m.Keys
    ensures forall n :: s.OnStack(n) <==> n in s.path
  {
    forall n ensures s.OnStack(n) <==> n in s.path {
      assert Coloured(m, s, n);
    }
  }

  /** `t` is the state after a fruitless examination of `name` begun in `s`. */
  ghost predicate Examined(ps: seq<ProcessConfig>, m: map<string, nat>, s: Search, from: Option<nat>, name: string, t: Search) {
    Valid(ps, m, t) && Later(s, t, from) && t.path == s.path && name in t.finished
  }

  /** `t` lies inside the examination of `name` begun in `s`, with `k` dependencies dealt with. */
  ghost predicate Examining(ps: seq<ProcessConfig>, m: map<string, nat>, s: Search, from: Option<nat>, name: string,
                            t: Search, k: nat)
  {
    && Valid(ps, m, t) && Later(s, t, from)
    && t.path == [name] + s.path
    && name in m && name !in s.progress
    && name in t.progress && t.progress[name] == k
    && k <= |Deps(ps, m, name)|
    && forall j | 0 <= j < k :: Deps(ps, m, name)[j] in t.finished
  }

  lemma ExaminationBegins(ps: seq<ProcessConfig>, m: map<string, nat>, s: Search, from: Option<nat>, name: string)
    requires Valid(ps, m, s) && name !in s.visited && name in m
    requires from.None? ==> s.path == []
    requires from.Some? ==> AtEntry(ps, m, s, from.value, name)
    ensures Examining(ps, m, s, from, name, Enter(s, name, from), 0)
  {
    EnterValid(ps, m, s, name, from);
    assert Measured(ps, m, s, name);
  }

  /** The names not yet visited grow fewer with each name entered. */
  lemma RoomLeft(ps: seq<ProcessConfig>, m: map<string, nat>, s: Search, from: Option<nat>, name: string, here: Search, k: nat)
    requires Examining(ps, m, s, from, name, here, k) && name !in s.visited
    ensures Universe(ps, m) - here.visited < Universe(ps, m) - s.visited
  {
    assert Measured(ps, m, here, name);
    assert name in Universe(ps, m) - s.visited;
  }

  lemma ExaminationMoves(ps: seq<ProcessConfig>, m: map<string, nat>, s: Search, from: Option<nat>, name: string,
                         here: Search, k: nat, t: Search)
    requires Examining(ps, m, s, from, name, here, k) && k < |Deps(ps, m, name)|
    requires Examined(ps, m, here, Some(k), Deps(ps, m, name)[k], t)
    ensures Examining(ps, m, s, from, name, t, k + 1)
  {
    LaterInside(s, here, t, from, k);
  }

  lemma ExaminationEnds(ps: seq<ProcessConfig>, m: map<string, nat>, s: Search, from: Option<nat>, name: string, t: Search)
    requires Examining(ps, m, s, from, name, t, |Deps(ps, m, name)|)
    ensures Examined(ps, m, s, from, name, Leave(t))
  {
    LeaveValid(ps, m, t);
  }

  // ---- the check itself -------------------------------------------------------

  class Detector {
    const ps: seq<ProcessConfig>
    const processMap: map<string, nat>
    var visited: set<string>
    var recStack: map<string, bool>
    ghost var search: Search

    constructor (ps: seq<ProcessConfig>, processMap: map<string, nat>)
      ensures this.ps == ps && this.processMap == processMap && search == BLANK && Agrees()
    {
      this.ps, this.processMap := ps, processMap;
      visited, recStack, search := {}, map[], BLANK;
    }

    /** The two maps the check keeps are the ones of the ghost search state. */
    ghost predicate Agrees()
      reads this
    {
      visited == search.visited && recStack == search.recStack
    }

    /**
     Examines an unvisited name. `from` is the position of `name` in the
     dependency list of the innermost name under examination, if there is one.
     */
    method HasCycle(name: string, ghost from: Option<nat>) returns (found: bool)
      requires Agrees() && Valid(ps, processMap, search) && name !in visited
      requires from.None? ==> search.path == [] && name in processMap
      requires from.Some? ==> AtEntry(ps, processMap, search, from.value, name)
      modifies this`visited, this`recStack, this`search
      ensures found ==> Rejects(ps)
      ensures !found ==> Agrees() && Examined(ps, processMap, old(search), from, name, search)
      decreases Universe(ps, processMap) - visited, 0
    {
      ghost var s := search;
      visited := visited + {name};
      recStack := recStack[name := true];

      if name !in processMap {
        VisitUndefinedValid(ps, processMap, s, name, from.value);
        search := VisitUndefined(s, name, from.value);
        return false;
      }
      ExaminationBegins(ps, processMap, s, from, name);
      search := Enter(s, name, from);
      RoomLeft(ps, processMap, s, from, name, search, 0);
      found := SomeDependencyHasCycle(name, s, from);
      if !found {
        ghost var t := search;
        assert recStack[name := false] == Leave(t).recStack && visited == Leave(t).visited;
        ExaminationEnds(ps, processMap, s, from, name, t);
        recStack := recStack[name := false];
        search := Leave(t);
      }
    }

    /** The loop over the dependencies of the innermost name. */
    method SomeDependencyHasCycle(name: string, ghost s: Search, ghost from: Option<nat>) returns (found: bool)
      requires Agrees() && Examining(ps, processMap, s, from, name, search, 0)
      modifies this`visited, this`recStack, this`search
      ensures found ==> Rejects(ps)
      ensures !found ==> Agrees() && Examining(ps, processMap, s, from, name, search, |Deps(ps, processMap, name)|)
      decreases Universe(ps, processMap) - visited, 1
    {
      var deps := ps[processMap[name]].dependsOn;
      ghost var begun := visited;
      for k := 0 to |deps|
        invariant Agrees() && Examining(ps, processMap, s, from, name, search, k)
        invariant begun <= visited
      {
        var dep := deps[k];
        ghost var here := search;
        if dep !in visited {
          var inner := HasCycle(dep, Some(k));
          if inner {
            return true;
          }
        } else if dep in recStack && recStack[dep] {
          StackHit(ps, processMap, here, k, dep);
          return true;
        } else {
          SkipValid(ps, processMap, here, k, dep);
          search := Skip(here, k);
        }
        ExaminationMoves(ps, processMap, s, from, name, here, k, search);
      }
      found := false;
    }
  }

  method IndexProcesses(ps: seq<ProcessConfig>) returns (m: map<string, nat>)
    ensures LastIndexMap(ps, m)
  {
    m := map[];
    for i := 0 to |ps|
      invariant forall n | n in m :: m[n] < i && ps[m[n]].name == n
      invariant forall j | 0 <= j < i :: ps[j].name in m && j <= m[ps[j].name]
    {
      m := m[ps[i].name := i];
    }
  }

  /** The whole check: it rejects exactly the lists described by `Rejects`. */
  method ValidateDependencies(ps: seq<ProcessConfig>) returns (rejected: bool)
    ensures rejected <==> Rejects(ps)
  {
    var processMap := IndexProcesses(ps);
    var d := new Detector(ps, processMap);
    var remaining := processMap.Keys;
    while remaining != {}
      invariant d.ps == ps && d.processMap == processMap
      invariant d.Agrees() && Valid(ps, processMap, d.search) && d.search.path == []
      invariant remaining <= processMap.Keys
      invariant forall n | n in processMap :: n in remaining || n in d.visited
      decreases remaining
    {
      var name :| name in remaining;
      remaining := remaining - {name};
      if name !in d.visited {
        var found := d.HasCycle(name, None);
        if found {
          return true;
        }
        assert Coloured(processMap, d.search, name);
      }
    }
    AllFinished(ps, processMap, d.search);
    rejected := false;
  }
}
