/**
 Processes given on the command line. Flags of most kinds go to processes from the
 left; dependency flags are aligned from the right, the last flag with the last
 process. The value of a dependency flag is a comma-separated list.
 */
module CommandLine {
  import opened Config
  import opened Text
  import opened Wrappers
  import YamlConfig

  datatype Arguments = Arguments(
    runs: seq<string>,
    names: seq<string>,
    restartPolicies: seq<string>,
    dependsOn: seq<string>,
    healthChecks: seq<string>,
    healthIntervals: seq<string>)

  // ---- the value of a dependency flag ---------------------------------------------------

  /** The pieces between commas; at least one. */
  function Split(s: string): (pieces: seq<string>)
    ensures pieces != []
  {
    if s == "" then [""]
    else
      var rest := Split(s[1..]);
      if s[0] == ',' then [""] + rest else [[s[0]] + rest[0]] + rest[1..]
  }

  function Join(names: seq<string>): string {
    if names == [] then "" else if |names| == 1 then names[0] else names[0] + "," + Join(names[1..])
  }

  /** The pieces without surrounding space, blank ones left out. */
  ghost function Cleaned(pieces: seq<string>): seq<string> {
    if pieces == [] then []
    else (if Trim(pieces[0]) == "" then [] else [Trim(pieces[0])]) + Cleaned(pieces[1..])
  }

  ghost function DependencyNames(flag: string): seq<string> {
    Cleaned(Split(flag))
  }

  /** A name that a dependency flag can carry. */
  predicate Clean(name: string) {
    name != "" && ',' !in name && Trim(name) == name
  }

  predicate AllClean(names: seq<string>) {
    forall i | 0 <= i < |names| :: Clean(names[i])
  }

  lemma {:induction false} SplitFirst(word: string, rest: string)
    requires ',' !in word
    ensures Split(word) == [word]
    ensures Split(word + "," + rest) == [word] + Split(rest)
  {
    if word == "" {
      assert ("," + rest)[1..] == rest;
    } else {
      assert word[0] in word;
      SplitFirst(word[1..], rest);
      assert (word + "," + rest)[1..] == word[1..] + "," + rest;
      assert [word[0]] + word[1..] == word;
    }
  }

  ghost predicate NoCommas(pieces: seq<string>) {
    forall i | 0 <= i < |pieces| :: ',' !in pieces[i]
  }

  lemma {:induction false} JoinedAreSplit(pieces: seq<string>)
    requires pieces != [] && NoCommas(pieces)
    ensures Split(Join(pieces)) == pieces
  {
    if |pieces| == 1 {
      SplitFirst(pieces[0], "");
    } else {
      SplitFirst(pieces[0], Join(pieces[1..]));
      JoinedAreSplit(pieces[1..]);
      assert [pieces[0]] + pieces[1..] == pieces;
    }
  }

  lemma {:induction false} CleanAreKept(names: seq<string>)
    requires AllClean(names)
    ensures Cleaned(names) == names
  {
    if names != [] {
      CleanAreKept(names[1..]);
    }
  }

  /** Splitting loses nothing: joined again, the pieces give the text, and none of them can be split. */
  lemma {:induction false} SplitIsExact(s: string)
    ensures Join(Split(s)) == s && NoCommas(Split(s))
  {
    if s != "" {
      var rest := Split(s[1..]);
      SplitIsExact(s[1..]);
      assert s == [s[0]] + s[1..];
      assert s[0] == ',' ==> ([""] + rest)[1..] == rest;
      assert s[0] != ',' ==> ([[s[0]] + rest[0]] + rest[1..])[1..] == rest[1..];
    }
  }

  lemma TrimmedIsTight(s: string)
    ensures Trim(Trim(s)) == Trim(s) && forall c | c in Trim(s) :: c in s
  {
    var i, j := TrimTakesMiddle(s);
    TrimRemovesPadding("", Trim(s), "");
    assert "" + Trim(s) + "" == Trim(s);
  }

  lemma {:induction false} CleanedAreClean(pieces: seq<string>)
    requires NoCommas(pieces)
    ensures AllClean(Cleaned(pieces))
  {
    if pieces != [] {
      TrimmedIsTight(pieces[0]);
      CleanedAreClean(pieces[1..]);
    }
  }

  /** Names joined by commas are read back exactly when each of them is clean. */
  lemma FlagRoundTrip(names: seq<string>)
    ensures DependencyNames(Join(names)) == names <==> AllClean(names)
  {
    if names != [] && AllClean(names) {
      JoinedAreSplit(names);
      CleanAreKept(names);
    }
    SplitIsExact(Join(names));
    CleanedAreClean(Split(Join(names)));
  }

  /** Each name with white space around it; a blank one is a name that was left out. */
  ghost function Padded(left: seq<string>, names: seq<string>, right: seq<string>): (pieces: seq<string>)
    requires |left| == |names| == |right|
    ensures |pieces| == |names|
  {
    seq(|names|, i requires 0 <= i < |names| => left[i] + names[i] + right[i])
  }

  ghost predicate AllBlank(pads: seq<string>) {
    forall i | 0 <= i < |pads| :: Blank(pads[i])
  }

  ghost predicate CleanOrMissing(names: seq<string>) {
    forall i | 0 <= i < |names| :: names[i] == "" || Clean(names[i])
  }

  ghost function Present(names: seq<string>): seq<string> {
    if names == [] then [] else (if names[0] == "" then [] else [names[0]]) + Present(names[1..])
  }

  lemma CleanIsTight(name: string)
    requires Clean(name)
    ensures Tight(name)
  {
    var i, j := TrimTakesMiddle(name);
  }

  lemma {:induction false} PaddingGoes(left: seq<string>, names: seq<string>, right: seq<string>)
    requires |left| == |names| == |right| && AllBlank(left) && AllBlank(right) && CleanOrMissing(names)
    ensures Cleaned(Padded(left, names, right)) == Present(names)
  {
    if names != [] {
      var pieces := Padded(left, names, right);
      if names[0] != "" {
        CleanIsTight(names[0]);
      }
      TrimRemovesPadding(left[0], names[0], right[0]);
      PaddingGoes(left[1..], names[1..], right[1..]);
      assert pieces[1..] == Padded(left[1..], names[1..], right[1..]);
    }
  }

  lemma PaddedHaveNoCommas(left: seq<string>, names: seq<string>, right: seq<string>)
    requires |left| == |names| == |right| && AllBlank(left) && AllBlank(right) && CleanOrMissing(names)
    ensures NoCommas(Padded(left, names, right))
  {
    forall i | 0 <= i < |names| ensures ',' !in Padded(left, names, right)[i] {
      forall c | c in left[i] || c in right[i] ensures c != ',' {
        var k :| (0 <= k < |left[i]| && left[i][k] == c) || (0 <= k < |right[i]| && right[i][k] == c);
      }
    }
  }

  /**
   Clean names, with any white space around each of them and blank places between them, are read
   back as the names.
   */
  lemma PaddedFlagRoundTrip(left: seq<string>, names: seq<string>, right: seq<string>)
    requires |left| == |names| == |right| && AllBlank(left) && AllBlank(right) && CleanOrMissing(names)
    ensures DependencyNames(Join(Padded(left, names, right))) == Present(names)
  {
    if names != [] {
      PaddedHaveNoCommas(left, names, right);
      JoinedAreSplit(Padded(left, names, right));
      PaddingGoes(left, names, right);
    }
  }

  // ---- which process a dependency flag reaches -------------------------------------------

  /** The dependencies that process `i` of `n` is given. */
  ghost function Received(flags: seq<string>, n: nat, i: nat): seq<string> {
    var k := i - (n - |flags|);
    if 0 <= k < |flags| then DependencyNames(flags[k]) else []
  }

  /**
   Counted from the right, each flag goes to the process in its place: surplus flags at the front
   are not used, and processes at the front without a flag get nothing.
   */
  lemma AlignedFromTheRight(flags: seq<string>, n: nat, t: nat)
    requires t < n
    ensures Received(flags, n, n - 1 - t) == if t < |flags| then DependencyNames(flags[|flags| - 1 - t]) else []
  {
  }

  /** One flag for every process that has dependencies, in the order of the processes. */
  ghost function FlagsFor(deps: seq<seq<string>>): seq<string> {
    if deps == [] then [] else FlagsFor(deps[..|deps| - 1]) + Flag(deps[|deps| - 1])
  }

  ghost function Flag(names: seq<string>): seq<string> {
    if names == [] then [] else [Join(names)]
  }

  /** Once a process has dependencies, so do all after it. */
  ghost predicate NoneAfterSome(deps: seq<seq<string>>) {
    forall i, j | 0 <= i < j < |deps| && deps[i] != [] :: deps[j] != []
  }

  lemma {:induction false} FlagsCarryNames(deps: seq<seq<string>>)
    requires forall i | 0 <= i < |deps| :: AllClean(deps[i])
    ensures forall k | 0 <= k < |FlagsFor(deps)| :: DependencyNames(FlagsFor(deps)[k]) != []
  {
    if deps != [] {
      FlagsCarryNames(deps[..|deps| - 1]);
      FlagRoundTrip(deps[|deps| - 1]);
    }
  }

  lemma {:induction false} NoFlags(deps: seq<seq<string>>)
    ensures FlagsFor(deps) == [] <==> forall i | 0 <= i < |deps| :: deps[i] == []
  {
    if deps != [] {
      var before := deps[..|deps| - 1];
      NoFlags(before);
      assert FlagsFor(deps) == [] <==> FlagsFor(before) == [] && deps[|deps| - 1] == [];
      assert forall i | 0 <= i < |before| :: before[i] == deps[i];
    }
  }

  ghost predicate AllReceive(flags: seq<string>, deps: seq<seq<string>>) {
    forall i | 0 <= i < |deps| :: Received(flags, |deps|, i) == deps[i]
  }

  /** A further flag goes to a further process, and the others keep theirs. */
  lemma OneMoreFlag(flags: seq<string>, deps: seq<seq<string>>, flag: string)
    ensures AllReceive(flags + [flag], deps + [DependencyNames(flag)]) <==> AllReceive(flags, deps)
  {
    var n := |deps|;
    var more, all := flags + [flag], deps + [DependencyNames(flag)];
    assert Received(more, n + 1, n) == all[n];
    forall i | 0 <= i < n ensures Received(more, n + 1, i) == Received(flags, n, i) && all[i] == deps[i] {
      var k := i - (n - |flags|);
      assert 0 <= k < |flags| ==> more[k] == flags[k];
    }
  }

  lemma SomeAtTheEnd(deps: seq<seq<string>>, last: seq<string>)
    ensures last != [] ==> (NoneAfterSome(deps + [last]) <==> NoneAfterSome(deps))
    ensures last == [] ==> (NoneAfterSome(deps + [last]) <==> forall i | 0 <= i < |deps| :: deps[i] == [])
  {
    var all := deps + [last];
    assert forall i | 0 <= i < |deps| :: all[i] == deps[i];
    assert all[|deps|] == last;
  }

  /**
   Giving a dependency flag to just the processes that have dependencies reaches
   those processes exactly when no process without dependencies follows one with.
   */
  lemma {:induction false} FlagsReachTheirProcesses(deps: seq<seq<string>>)
    requires forall i | 0 <= i < |deps| :: AllClean(deps[i])
    ensures AllReceive(FlagsFor(deps), deps) <==> NoneAfterSome(deps)
  {
    if deps != [] {
      var n := |deps| - 1;
      var before, last := deps[..n], deps[n];
      assert deps == before + [last];
      SomeAtTheEnd(before, last);
      FlagRoundTrip(last);
      if last != [] {
        FlagsReachTheirProcesses(before);
        OneMoreFlag(FlagsFor(before), before, Join(last));
      } else {
        FlagsCarryNames(before);
        NoFlags(before);
        var flags := FlagsFor(before);
        if flags != [] {
          assert Received(flags, n + 1, n) == DependencyNames(flags[|flags| - 1]);
        }
      }
    }
  }

  /** The least case that fails: of three processes the second depends on `a`, and the third gets its flag. */
  lemma FlagGoesAstray()
    ensures var deps := [[], ["a"], []];
      FlagsFor(deps) == ["a"] && Received(["a"], 3, 1) == [] && Received(["a"], 3, 2) == ["a"]
  {
    var deps: seq<seq<string>> := [[], ["a"], []];
    assert deps[..2] == [[], ["a"]] && deps[..2][..1] == [[]] && deps[..2][..1][..0] == [];
    assert FlagsFor(deps[..2][..1]) == [];
    assert FlagsFor(deps[..2]) == [Join(["a"])] == ["a"];
    assert Clean("a");
    FlagRoundTrip(["a"]);
  }

  // ---- building the processes --------------------------------------------------------------

  datatype Fault = BadPolicy(name: string) | BadHealthInterval(name: string)

  ghost function NameOf(args: Arguments, i: nat): string {
    if i < |args.names| then args.names[i] else "process-" + Show(i + 1)
  }

  ghost predicate PolicyLegible(args: Arguments, i: nat) {
    i < |args.restartPolicies| ==> YamlConfig.OneOf(POLICIES, args.restartPolicies[i]).Some?
  }

  ghost predicate IntervalLegible(k: YamlConfig.Codec, args: Arguments, i: nat) {
    i < |args.healthIntervals| && Trim(args.healthIntervals[i]) != "" ==> k.parse(Trim(args.healthIntervals[i])).Some?
  }

  ghost predicate Legible(k: YamlConfig.Codec, args: Arguments, i: nat) {
    PolicyLegible(args, i) && IntervalLegible(k, args, i)
  }

  /** Processes without a name are numbered from one, and so differ. */
  lemma DefaultNamesDiffer(args: Arguments, i: nat, j: nat)
    requires |args.names| <= i < j
    ensures NameOf(args, i) == "process-" + Show(i + 1) != NameOf(args, j)
  {
    if NameOf(args, i) == NameOf(args, j) {
      assert Show(i + 1) == NameOf(args, i)[8..] == NameOf(args, j)[8..] == Show(j + 1);
      ShowIsInjective(i + 1, j + 1);
    }
  }

  ghost predicate PolicyIs(args: Arguments, i: nat, policy: string) {
    if i < |args.restartPolicies| then Some(policy) == YamlConfig.OneOf(POLICIES, args.restartPolicies[i])
    else policy == ALWAYS
  }

  ghost predicate IntervalIs(k: YamlConfig.Codec, g: Config, args: Arguments, i: nat, interval: int) {
    if i < |args.healthIntervals| && Trim(args.healthIntervals[i]) != ""
    then Some(interval) == k.parse(Trim(args.healthIntervals[i]))
    else interval == g.healthInterval
  }

  /** What the arguments say about process `i`, under the global settings. */
  ghost predicate Describes(k: YamlConfig.Codec, g: Config, args: Arguments, i: nat, p: ProcessConfig)
    requires i < |args.runs|
  {
    && p.name == NameOf(args, i) && p.command == args.runs[i]
    && PolicyIs(args, i, p.restartPolicy)
    && p.dependsOn == Received(args.dependsOn, |args.runs|, i)
    && p.healthCheck == (if i < |args.healthChecks| then args.healthChecks[i] else "")
    && IntervalIs(k, g, args, i, p.healthInterval)
    && p.startRetries == g.startRetries && p.startupTime == g.startupTime
    && p.maxRestarts == g.maxRestarts && p.restartDelay == g.restartDelay
  }

  /** Process `i` cannot be read, and this is its first flag at fault. */
  ghost predicate FaultyAt(k: YamlConfig.Codec, args: Arguments, i: nat, fault: Fault) {
    && fault.name == NameOf(args, i)
    && (if fault.BadPolicy? then !PolicyLegible(args, i) else PolicyLegible(args, i) && !IntervalLegible(k, args, i))
  }

  lemma CleanedNext(pieces: seq<string>, d: nat)
    requires d < |pieces|
    ensures Cleaned(pieces[d..]) == (if Trim(pieces[d]) == "" then [] else [Trim(pieces[d])]) + Cleaned(pieces[d + 1..])
  {
    assert pieces[d..][1..] == pieces[d + 1..];
  }

  method ReadDependencies(flag: string) returns (names: seq<string>)
    ensures names == DependencyNames(flag)
  {
    names := [];
    var deps := Split(flag);
    for d := 0 to |deps|
      invariant names + Cleaned(deps[d..]) == Cleaned(deps)
    {
      CleanedNext(deps, d);
      var dep := Trim(deps[d]);
      if dep != "" {
        names := names + [dep];
      }
    }
  }

  method ReadPolicy(args: Arguments, i: nat) returns (policy: Option<string>)
    ensures policy.Some? <==> PolicyLegible(args, i)
    ensures policy.Some? ==> PolicyIs(args, i, policy.value)
  {
    policy := Some(ALWAYS);
    if i < |args.restartPolicies| {
      policy := YamlConfig.OneOf(POLICIES, args.restartPolicies[i]);
    }
  }

  method ReadInterval(k: YamlConfig.Codec, g: Config, args: Arguments, i: nat) returns (interval: Option<int>)
    ensures interval.Some? <==> IntervalLegible(k, args, i)
    ensures interval.Some? ==> IntervalIs(k, g, args, i, interval.value)
  {
    interval := Some(g.healthInterval);
    if i < |args.healthIntervals| {
      var text := Trim(args.healthIntervals[i]);
      if text != "" {
        interval := k.parse(text);
      }
    }
  }

  method ReadName(args: Arguments, i: nat) returns (name: string)
    ensures name == NameOf(args, i)
    ensures i < |args.names| ==> name == args.names[i]
    ensures i >= |args.names| ==> name == "process-" + Show(i + 1)
  {
    if i < |args.names| {
      name := args.names[i];
    } else {
      name := "process-" + Show(i + 1);
    }
  }

  /** The dependency flag of process `i`, if it has one, is found from the right. */
  method ReadDependencyFlag(args: Arguments, i: nat) returns (dependsOn: seq<string>)
    ensures dependsOn == Received(args.dependsOn, |args.runs|, i)
  {
    dependsOn := [];
    var depIdx := i - (|args.runs| - |args.dependsOn|);
    if 0 <= depIdx < |args.dependsOn| {
      dependsOn := ReadDependencies(args.dependsOn[depIdx]);
    }
  }

  /** One process, from the flags that belong to it. */
  method AddProcess(k: YamlConfig.Codec, g: Config, args: Arguments, i: nat) returns (r: Result<ProcessConfig, Fault>)
    requires i < |args.runs|
    ensures r.Success? ==> Legible(k, args, i) && Describes(k, g, args, i, r.value)
    ensures r.Failure? ==> FaultyAt(k, args, i, r.error)
  {
    var name := ReadName(args, i);
    var policy := ReadPolicy(args, i);
    if policy.None? {
      return Failure(BadPolicy(name));
    }
    var dependsOn := ReadDependencyFlag(args, i);
    var healthCheck := "";
    if i < |args.healthChecks| {
      healthCheck := args.healthChecks[i];
    }
    var interval := ReadInterval(k, g, args, i);
    if interval.None? {
      return Failure(BadHealthInterval(name));
    }
    r := Success(ProcessConfig(name, args.runs[i], policy.value, dependsOn, healthCheck, interval.value,
                               g.startRetries, g.startupTime, g.maxRestarts, g.restartDelay));
  }

  /** All processes in order, or the first fault. */
  method AddProcesses(k: YamlConfig.Codec, g: Config, args: Arguments) returns (r: Result<seq<ProcessConfig>, Fault>)
    ensures r.Success? ==> |r.value| == |args.runs|
    ensures r.Success? ==> forall i | 0 <= i < |args.runs| :: Legible(k, args, i) && Describes(k, g, args, i, r.value[i])
    ensures r.Failure? ==>
      exists i :: 0 <= i < |args.runs| && FaultyAt(k, args, i, r.error) && forall j | 0 <= j < i :: Legible(k, args, j)
  {
    var processes := [];
    for i := 0 to |args.runs|
      invariant |processes| == i
      invariant forall j | 0 <= j < i :: Legible(k, args, j) && Describes(k, g, args, j, processes[j])
    {
      var p := AddProcess(k, g, args, i);
      if p.Failure? {
        return Failure(p.error);
      }
      processes := processes + [p.value];
    }
    r := Success(processes);
  }
}
