/**
 Per-process log files with rotation by size. The directory of one logger is its
 current file and a map from time stamps to backup files. Clock readings and the
 stamp a rotation would use are arguments; file operations succeed.
 */
module LogRotation {
  import opened DependencyGraph
  import opened Wrappers

  newtype Byte = x: int | 0 <= x < 256
  type Bytes = seq<Byte>

  datatype File = File(content: Bytes, modTime: int)

  /** One entry of the listing that clean-up sorts. */
  datatype FileInfo = FileInfo(path: string, modTime: int)

  // ---- the exchange sort -----------------------------------------------------------

  ghost predicate SortedByTime(s: seq<FileInfo>) {
    forall i, j | 0 <= i < j < |s| :: s[i].modTime <= s[j].modTime
  }

  /** The first `i` entries are in place: sorted, and none later than any entry after them. */
  ghost predicate InPlace(s: seq<FileInfo>, i: nat) {
    forall k, l | 0 <= k < i && k < l < |s| :: s[k].modTime <= s[l].modTime
  }

  /** Sorts the listing in place, oldest first. */
  method SortByTime(files: array<FileInfo>)
    modifies files
    ensures SortedByTime(files[..])
    ensures multiset(files[..]) == multiset(old(files[..]))
  {
    var n := files.Length;
    var i := 0;
    while i < n - 1
      invariant 0 <= i <= n && InPlace(files[..], i)
      invariant multiset(files[..]) == multiset(old(files[..]))
    {
      var j := i + 1;
      while j < n
        invariant i < j <= n && InPlace(files[..], i)
        invariant forall l | i < l < j :: files[i].modTime <= files[l].modTime
        invariant multiset(files[..]) == multiset(old(files[..]))
      {
        if files[i].modTime > files[j].modTime {
          files[i], files[j] := files[j], files[i];
        }
        j := j + 1;
      }
      i := i + 1;
    }
  }

  // ---- listing and pruning the backups ---------------------------------------------

  /** `s` lists every backup once, with its modification time. */
  ghost predicate Listing(backups: map<string, File>, s: seq<FileInfo>) {
    && |s| == |backups|
    && (forall f | f in s :: f.path in backups && f.modTime == backups[f.path].modTime)
    && (forall i, j | 0 <= i < j < |s| :: s[i].path != s[j].path)
  }

  lemma PermutedListing(backups: map<string, File>, s: seq<FileInfo>, t: seq<FileInfo>)
    requires Listing(backups, s) && multiset(s) == multiset(t)
    ensures Listing(backups, t)
  {
    assert |t| == |multiset(t)| == |multiset(s)| == |s|;
    forall f | f in t ensures f in s {
      assert f in multiset(t);
    }
    forall i, j | 0 <= i < j < |t| ensures t[i].path != t[j].path {
      assert t[i] in t && t[j] in t;
      if t[i].path == t[j].path {
        SamePathSameEntry(s, t[i], t[j]);
        OccursTwice(t, i, j);
        OccursOnce(s, t[i]);
      }
    }
  }

  lemma SamePathSameEntry(s: seq<FileInfo>, f: FileInfo, g: FileInfo)
    requires f in s && g in s && f.path == g.path
    requires forall i, j | 0 <= i < j < |s| :: s[i].path != s[j].path
    ensures f == g
  {
    var a :| 0 <= a < |s| && s[a] == f;
    var b :| 0 <= b < |s| && s[b] == g;
  }

  lemma OccursTwice(t: seq<FileInfo>, i: nat, j: nat)
    requires i < j < |t| && t[i] == t[j]
    ensures multiset(t)[t[i]] >= 2
  {
    assert t == t[..i] + [t[i]] + t[i + 1..j] + [t[j]] + t[j + 1..];
  }

  lemma OccursOnce(s: seq<FileInfo>, f: FileInfo)
    requires f in s && forall i, j | 0 <= i < j < |s| :: s[i].path != s[j].path
    ensures multiset(s)[f] == 1
  {
    var a :| 0 <= a < |s| && s[a] == f;
    assert s == s[..a] + [f] + s[a + 1..];
    assert f !in s[..a] && f !in s[a + 1..];
  }

  /**
   `after` is `before` without its oldest files: what is kept is unchanged, as
   many as allowed are kept, and nothing removed is newer than anything kept.
   */
  ghost predicate Pruned(before: map<string, File>, after: map<string, File>, maxBackups: nat) {
    && after.Keys <= before.Keys
    && (forall k | k in after :: after[k] == before[k])
    && |after| == (if |before| <= maxBackups then |before| else maxBackups)
    && forall k, r | k in after && r in before && r !in after :: before[r].modTime <= before[k].modTime
  }

  method ListBackups(backups: map<string, File>) returns (files: array<FileInfo>)
    ensures fresh(files) && Listing(backups, files[..])
  {
    var found: seq<FileInfo> := [];
    var remaining := backups.Keys;
    while remaining != {}
      invariant remaining <= backups.Keys
      invariant |found| + |remaining| == |backups|
      invariant forall f | f in found :: f.path in backups && f.path !in remaining && f.modTime == backups[f.path].modTime
      invariant forall i, j | 0 <= i < j < |found| :: found[i].path != found[j].path
      decreases remaining
    {
      var path :| path in remaining;
      remaining := remaining - {path};
      found := found + [FileInfo(path, backups[path].modTime)];
    }
    files := new FileInfo[|found|](i requires 0 <= i < |found| => found[i]);
    assert files[..] == found;
  }

  class ProcessLogger {
    const maxSize: int
    const maxBackups: nat
    var current: File
    var currentSize: int
    var backups: map<string, File>

    /** Opens the current file for appending, creating it if it does not exist. */
    constructor (maxSize: int, maxBackups: nat, existing: Option<File>, backups: map<string, File>, now: int)
      ensures this.maxSize == maxSize && this.maxBackups == maxBackups && this.backups == backups
      ensures Valid() && current == if existing.None? then File([], now) else existing.value
    {
      this.maxSize, this.maxBackups, this.backups := maxSize, maxBackups, backups;
      current := if existing.None? then File([], now) else existing.value;
      currentSize := if existing.None? then 0 else |existing.value.content|;
    }

    /** The size kept in memory is the size of the file. */
    ghost predicate Valid()
      reads this
    {
      currentSize == |current.content|
    }

    ghost function Contents(): Log
      reads this
    {
      Log(current, backups)
    }

    /**
     Removes the oldest backups beyond the number allowed.
     */
    method CleanupOldBackups()
      modifies this`backups
      ensures Pruned(old(backups), backups, maxBackups)
    {
      if |backups| <= maxBackups {
        return;
      }
      ghost var before := backups;
      var files := ListBackups(backups);
      ghost var listed := files[..];
      SortByTime(files);
      PermutedListing(before, listed, files[..]);
      ghost var sorted := files[..];
      var excess := files.Length - maxBackups;
      for i := 0 to excess
        invariant files[..] == sorted
        invariant RemovedUpTo(before, backups, sorted, i)
      {
        RemoveNext(before, backups, sorted, i);
        backups := backups - {files[i].path};
      }
      OldestRemoved(before, backups, sorted, maxBackups);
    }

    /** Turns the current file into a backup and opens an empty one. */
    method Rotate(now: int, stamp: string)
      modifies this
      ensures Valid() && Rotated(maxBackups, old(Contents()), now, stamp, Contents())
    {
      backups := backups[stamp := current];
      CleanupOldBackups();
      current := File([], now);
      currentSize := 0;
    }

    /** Appends `p`, rotating first if it does not fit. */
    method Write(p: Bytes, now: int, stamp: string)
      requires Valid()
      modifies this
      ensures Valid()
      ensures currentSize <= maxSize || current.content == p
      ensures |old(current).content| + |p| <= maxSize ==>
        backups == old(backups) && current.content == old(current).content + p
      ensures |old(current).content| + |p| > maxSize ==>
        current.content == p && Pruned(old(backups)[stamp := old(current)], backups, maxBackups)
      ensures p != [] ==> current.modTime == now
      ensures Written(maxSize, maxBackups, old(Contents()), WriteCall(p, now, stamp), Contents())
    {
      if currentSize + |p| > maxSize {
        Rotate(now, stamp);
      }
      ghost var middle := Contents();
      current := File(current.content + p, if p == [] then current.modTime else now);
      currentSize := currentSize + |p|;
      assert Appended(middle, p, now) == Contents();
    }
  }

  /** The listed paths below `i` have been removed, and nothing else. */
  ghost predicate RemovedUpTo(before: map<string, File>, now: map<string, File>, sorted: seq<FileInfo>, i: nat) {
    && i <= |sorted|
    && |now| == |before| - i
    && (forall k | k in now :: k in before && now[k] == before[k])
    && (forall j | 0 <= j < |sorted| :: sorted[j].path in now <==> i <= j)
  }

  lemma RemoveNext(before: map<string, File>, now: map<string, File>, sorted: seq<FileInfo>, i: nat)
    requires Listing(before, sorted) && RemovedUpTo(before, now, sorted, i) && i < |sorted|
    ensures RemovedUpTo(before, now - {sorted[i].path}, sorted, i + 1)
  {
    var next := now - {sorted[i].path};
    assert sorted[i].path in now;
    assert next.Keys == now.Keys - {sorted[i].path};
    assert |next.Keys| == |now.Keys| - 1;
  }

  lemma ListedOnce(before: map<string, File>, s: seq<FileInfo>, path: string) returns (i: nat)
    requires Listing(before, s) && path in before
    ensures i < |s| && s[i].path == path
  {
    var paths := seq(|s|, j requires 0 <= j < |s| => s[j].path);
    assert Distinct(paths);
    DistinctSize(paths);
    forall q | q in Elements(paths) ensures q in before.Keys {
      var j :| 0 <= j < |paths| && paths[j] == q;
      assert s[j] in s;
    }
    SubsetSize(Elements(paths), before.Keys);
    assert path in Elements(paths);
    i :| 0 <= i < |paths| && paths[i] == path;
  }

  lemma OldestRemoved(before: map<string, File>, after: map<string, File>, sorted: seq<FileInfo>, maxBackups: nat)
    requires Listing(before, sorted) && SortedByTime(sorted) && maxBackups < |sorted|
    requires RemovedUpTo(before, after, sorted, |sorted| - maxBackups)
    ensures Pruned(before, after, maxBackups)
  {
    forall k, r | k in after && r in before && r !in after ensures before[r].modTime <= before[k].modTime {
      var i := ListedOnce(before, sorted, r);
      var j := ListedOnce(before, sorted, k);
      assert sorted[i] in sorted && sorted[j] in sorted;
      assert i < j;
    }
  }

  // ---- rotation as a relation on contents --------------------------------------------

  datatype Log = Log(current: File, backups: map<string, File>)

  datatype WriteCall = WriteCall(p: Bytes, now: int, stamp: string)

  ghost predicate Rotated(maxBackups: nat, l: Log, now: int, stamp: string, l': Log) {
    && Pruned(l.backups[stamp := l.current], l'.backups, maxBackups)
    && l'.current == File([], now)
  }

  ghost function Appended(l: Log, p: Bytes, now: int): Log {
    l.(current := File(l.current.content + p, if p == [] then l.current.modTime else now))
  }

  /** The call does not fit into the current file. */
  ghost predicate Overflows(maxSize: int, size: nat, p: Bytes) {
    size + |p| > maxSize
  }

  ghost predicate Written(maxSize: int, maxBackups: nat, l: Log, w: WriteCall, l': Log) {
    if Overflows(maxSize, |l.current.content|, w.p) then
      exists middle :: Rotated(maxBackups, l, w.now, w.stamp, middle) && l' == Appended(middle, w.p, w.now)
    else
      l' == Appended(l, w.p, w.now)
  }
}
