/**
 What rotation retains over whole runs. The reference is the history: all bytes
 ever in the log, cut into pieces wherever a rotation happened, nothing dropped.
 */
module LogHistory {
  import opened DependencyGraph
  import opened LogRotation

  type Pieces = seq<Bytes>

  function Flatten(h: Pieces): Bytes {
    if h == [] then [] else Flatten(h[..|h| - 1]) + h[|h| - 1]
  }

  /** The history after one more write: the write starts a new piece, or extends the last one. */
  ghost function Grow(maxSize: int, h: Pieces, p: Bytes): Pieces
    requires h != []
  {
    if Overflows(maxSize, |h[|h| - 1]|, p) then h + [p]
    else h[..|h| - 1] + [h[|h| - 1] + p]
  }

  lemma GrowAppends(maxSize: int, h: Pieces, p: Bytes)
    requires h != []
    ensures Flatten(Grow(maxSize, h, p)) == Flatten(h) + p
  {
    var g := Grow(maxSize, h, p);
    if Overflows(maxSize, |h[|h| - 1]|, p) {
      assert g[..|g| - 1] == h;
    } else {
      assert g[..|g| - 1] == h[..|h| - 1];
    }
  }

  /** The stamps of the backups from oldest to newest, strictly by modification time, all older than the current file. */
  ghost predicate AgeOrdered(l: Log, ages: seq<string>) {
    && Distinct(ages)
    && Elements(ages) == l.backups.Keys
    && (forall i, j {:trigger Older(l, ages, i, j)} | 0 <= i < j < |ages| :: Older(l, ages, i, j))
    && (forall i {:trigger OlderThanCurrent(l, ages, i)} | 0 <= i < |ages| :: OlderThanCurrent(l, ages, i))
  }

  ghost predicate Older(l: Log, ages: seq<string>, i: int, j: int) {
    && 0 <= i < |ages| && 0 <= j < |ages|
    && ages[i] in l.backups && ages[j] in l.backups
    && l.backups[ages[i]].modTime < l.backups[ages[j]].modTime
  }

  ghost predicate OlderThanCurrent(l: Log, ages: seq<string>, i: int) {
    && 0 <= i < |ages|
    && ages[i] in l.backups
    && l.backups[ages[i]].modTime < l.current.modTime
  }

  function ContentOf(l: Log, stamp: string): Bytes {
    if stamp in l.backups then l.backups[stamp].content else []
  }

  /** What is on disk, from the oldest backup to the current file. */
  function OnDisk(l: Log, ages: seq<string>): Pieces {
    seq(|ages|, i requires 0 <= i < |ages| => ContentOf(l, ages[i])) + [l.current.content]
  }

  ghost predicate IsSuffix<T>(s: seq<T>, t: seq<T>) {
    |s| <= |t| && s == t[|t| - |s|..]
  }

  /** The pieces on disk are the last pieces of the history. */
  ghost predicate Retains(l: Log, ages: seq<string>, h: Pieces) {
    && AgeOrdered(l, ages)
    && h != []
    && IsSuffix(OnDisk(l, ages), h)
  }

  // ---- one write ----------------------------------------------------------------------

  /** The first of so many that pruning leaves. */
  function Dropped(n: nat, maxBackups: nat): nat {
    if n <= maxBackups then 0 else n - maxBackups
  }

  /** The stamps left after a rotation: the new one joins, and the oldest beyond the limit go. */
  ghost function AgesAfter(ages: seq<string>, stamp: string, maxBackups: nat): seq<string> {
    var all := ages + [stamp];
    all[Dropped(|all|, maxBackups)..]
  }

  /** `l` with the current file set aside under `stamp`, before any pruning. */
  function AsideUnder(l: Log, stamp: string, now: int): Log {
    Log(File([], now), l.backups[stamp := l.current])
  }

  lemma SetAside(l: Log, ages: seq<string>, stamp: string, now: int)
    requires AgeOrdered(l, ages) && stamp !in l.backups && l.current.modTime < now
    ensures AgeOrdered(AsideUnder(l, stamp, now), ages + [stamp])
    ensures OnDisk(AsideUnder(l, stamp, now), ages + [stamp]) == OnDisk(l, ages) + [[]]
  {
    var l' := AsideUnder(l, stamp, now);
    var all := ages + [stamp];
    assert Elements(all) == Elements(ages) + {stamp};
    forall i | 0 <= i < |ages| ensures ages[i] != stamp && ages[i] in l.backups {
      assert ages[i] in Elements(ages);
    }
    forall i, j | 0 <= i < j < |all| ensures Older(l', all, i, j) {
      assert if j < |ages| then Older(l, ages, i, j) else OlderThanCurrent(l, ages, i);
    }
    forall i | 0 <= i < |all| ensures OlderThanCurrent(l', all, i) {
      assert i < |ages| ==> OlderThanCurrent(l, ages, i);
    }
  }

  /** With strictly increasing times, pruning keeps exactly the newest stamps. */
  lemma PruningKeepsNewest(l: Log, ages: seq<string>, after: map<string, File>, maxBackups: nat)
    requires AgeOrdered(l, ages) && Pruned(l.backups, after, maxBackups)
    ensures Elements(ages[Dropped(|ages|, maxBackups)..]) == after.Keys
  {
    DistinctSize(ages);
    assert |ages| == |l.backups|;
    if |ages| <= maxBackups {
      assert ages[0..] == ages;
      assert |after.Keys| == |l.backups.Keys|;
      SubsetSize(after.Keys, l.backups.Keys);
    } else {
      var n := |ages| - maxBackups;
      var kept, gone := ages[n..], ages[..n];
      forall j | 0 <= j < n ensures ages[j] !in after {
        if ages[j] in after {
          OldKeptMeansFewGone(l, ages, after, maxBackups, j);
        }
      }
      forall k | k in after ensures k in Elements(kept) {
        assert k in Elements(ages);
        var i :| 0 <= i < |ages| && ages[i] == k;
        assert kept[i - n] == k;
      }
      DistinctSize(kept);
      assert |after.Keys| == maxBackups;
      SubsetSize(after.Keys, Elements(kept));
    }
  }

  /** If the `j`-th oldest stamp were kept, at most `j` could have gone. */
  lemma OldKeptMeansFewGone(l: Log, ages: seq<string>, after: map<string, File>, maxBackups: nat, j: nat)
    requires AgeOrdered(l, ages) && Pruned(l.backups, after, maxBackups)
    requires j < |ages| - maxBackups && ages[j] in after && |ages| == |l.backups|
    ensures false
  {
    var gone := l.backups.Keys - after.Keys;
    forall r | r in gone ensures r in Elements(ages[..j]) {
      assert r in Elements(ages) && ages[j] in Elements(ages);
      var i :| 0 <= i < |ages| && ages[i] == r;
      assert l.backups[r].modTime <= l.backups[ages[j]].modTime;
      assert i > j ==> Older(l, ages, j, i);
      assert ages[..j][i] == r;
    }
    DistinctSize(ages[..j]);
    SubsetSize(gone, Elements(ages[..j]));
    assert |l.backups.Keys| == |gone| + |after.Keys| by {
      assert l.backups.Keys == gone + after.Keys;
    }
  }

  lemma DropOldest(full: Log, all: seq<string>, d: nat, l: Log)
    requires AgeOrdered(full, all) && d <= |all|
    requires l.current == full.current && l.backups.Keys == Elements(all[d..])
    requires forall k | k in l.backups :: k in full.backups && l.backups[k] == full.backups[k]
    ensures AgeOrdered(l, all[d..])
    ensures OnDisk(l, all[d..]) == OnDisk(full, all)[d..]
  {
    var kept := all[d..];
    forall i | 0 <= i < |kept| ensures kept[i] in l.backups && kept[i] in full.backups {
      assert kept[i] in Elements(kept);
    }
    forall i, j | 0 <= i < j < |kept| ensures Older(l, kept, i, j) {
      assert Older(full, all, d + i, d + j);
    }
    forall i | 0 <= i < |kept| ensures OlderThanCurrent(l, kept, i) {
      assert OlderThanCurrent(full, all, d + i);
    }
    SameOnDisk(full, all, d, l);
  }

  lemma SameOnDisk(full: Log, all: seq<string>, d: nat, l: Log)
    requires d <= |all| && l.current == full.current
    requires forall i | d <= i < |all| :: ContentOf(l, all[i]) == ContentOf(full, all[i])
    ensures OnDisk(l, all[d..]) == OnDisk(full, all)[d..]
  {
  }

  lemma SuffixOfLonger(s: Pieces, h: Pieces, x: Bytes, d: nat)
    requires IsSuffix(s, h) && d <= |s|
    ensures IsSuffix((s + [x])[d..], h + [x])
  {
  }

  lemma RotationRetains(maxBackups: nat, l: Log, ages: seq<string>, now: int, stamp: string, l': Log, h: Pieces)
    requires Retains(l, ages, h) && Rotated(maxBackups, l, now, stamp, l')
    requires stamp !in l.backups && l.current.modTime < now
    ensures Retains(l', AgesAfter(ages, stamp, maxBackups), h + [[]])
  {
    SetAside(l, ages, stamp, now);
    PrunedOnDisk(maxBackups, AsideUnder(l, stamp, now), ages + [stamp], l');
    SuffixOfLonger(OnDisk(l, ages), h, [], |ages| + 1 - |AgesAfter(ages, stamp, maxBackups)|);
  }

  /** Pruning cuts the oldest pieces off. */
  lemma PrunedOnDisk(maxBackups: nat, full: Log, all: seq<string>, l: Log)
    requires AgeOrdered(full, all) && Pruned(full.backups, l.backups, maxBackups) && l.current == full.current
    ensures var d := Dropped(|all|, maxBackups);
      AgeOrdered(l, all[d..]) && OnDisk(l, all[d..]) == OnDisk(full, all)[d..]
  {
    PruningKeepsNewest(full, all, l.backups, maxBackups);
    var d := Dropped(|all|, maxBackups);
    assert all[0..] == all;
    DropOldest(full, all, d, l);
  }

  lemma AppendRetains(l: Log, ages: seq<string>, h: Pieces, p: Bytes, now: int)
    requires Retains(l, ages, h) && l.current.modTime <= now
    ensures Retains(Appended(l, p, now), ages, h[..|h| - 1] + [h[|h| - 1] + p])
  {
    var l' := Appended(l, p, now);
    var g := h[..|h| - 1] + [h[|h| - 1] + p];
    var before, after := OnDisk(l, ages), OnDisk(l', ages);
    forall i, j | 0 <= i < j < |ages| ensures Older(l', ages, i, j) {
      assert Older(l, ages, i, j);
    }
    forall i | 0 <= i < |ages| ensures OlderThanCurrent(l', ages, i) {
      assert OlderThanCurrent(l, ages, i);
    }
    assert before[|before| - 1] == h[|h| - 1];
    assert after == before[..|before| - 1] + [l.current.content + p];
    assert after == g[|g| - |after|..];
  }

  /**
   The clock does not run backwards; if the write rotates, the clock has moved on
   since the current file was last modified, and the stamp is new.
   */
  ghost predicate Timely(maxSize: int, l: Log, w: WriteCall) {
    && l.current.modTime <= w.now
    && (Overflows(maxSize, |l.current.content|, w.p) ==> l.current.modTime < w.now && w.stamp !in l.backups)
  }

  ghost function AgesAfterWrite(maxSize: int, maxBackups: nat, l: Log, ages: seq<string>, w: WriteCall): seq<string> {
    if Overflows(maxSize, |l.current.content|, w.p) then AgesAfter(ages, w.stamp, maxBackups) else ages
  }

  lemma WriteRetains(maxSize: int, maxBackups: nat, l: Log, ages: seq<string>, w: WriteCall, l': Log, h: Pieces)
    requires Retains(l, ages, h) && TimelyWrite(maxSize, maxBackups, l, w, l')
    ensures Retains(l', AgesAfterWrite(maxSize, maxBackups, l, ages, w), Grow(maxSize, h, w.p))
    ensures Overflows(maxSize, |l.current.content|, w.p) ==> |l'.backups| <= maxBackups
  {
    var disk := OnDisk(l, ages);
    assert h[|h| - 1] == disk[|disk| - 1] == l.current.content;
    if Overflows(maxSize, |l.current.content|, w.p) {
      var middle :| Rotated(maxBackups, l, w.now, w.stamp, middle) && l' == Appended(middle, w.p, w.now);
      var ages' := AgesAfter(ages, w.stamp, maxBackups);
      RotationRetains(maxBackups, l, ages, w.now, w.stamp, middle, h);
      AppendRetains(middle, ages', h + [[]], w.p, w.now);
      assert (h + [[]])[..|h|] == h;
      assert [] + w.p == w.p;
    } else {
      AppendRetains(l, ages, h, w.p, w.now);
    }
  }

  // ---- whole runs -----------------------------------------------------------------------

  ghost predicate IsLogRun(maxSize: int, maxBackups: nat, run: seq<Log>, writes: seq<WriteCall>) {
    && |run| == |writes| + 1
    && forall k | 0 <= k < |writes| :: TimelyWrite(maxSize, maxBackups, run[k], writes[k], run[k + 1])
  }

  ghost predicate TimelyWrite(maxSize: int, maxBackups: nat, l: Log, w: WriteCall, l': Log) {
    Written(maxSize, maxBackups, l, w, l') && Timely(maxSize, l, w)
  }

  ghost function HistoryOf(maxSize: int, h: Pieces, writes: seq<WriteCall>): (g: Pieces)
    requires h != []
    ensures g != []
  {
    if writes == [] then h
    else Grow(maxSize, HistoryOf(maxSize, h, writes[..|writes| - 1]), writes[|writes| - 1].p)
  }

  function BytesOf(writes: seq<WriteCall>): Bytes {
    if writes == [] then [] else BytesOf(writes[..|writes| - 1]) + writes[|writes| - 1].p
  }

  /** The history is everything that was on disk at first, then everything written. */
  lemma {:induction false} HistoryIsComplete(maxSize: int, h: Pieces, writes: seq<WriteCall>)
    requires h != []
    ensures Flatten(HistoryOf(maxSize, h, writes)) == Flatten(h) + BytesOf(writes)
  {
    if writes == [] {
      assert Flatten(h) + [] == Flatten(h);
    } else {
      var front, p := writes[..|writes| - 1], writes[|writes| - 1].p;
      HistoryIsComplete(maxSize, h, front);
      GrowAppends(maxSize, HistoryOf(maxSize, h, front), p);
      assert Flatten(h) + BytesOf(front) + p == Flatten(h) + (BytesOf(front) + p);
    }
  }

  /**
   The log rotates only when it has to, and when it has to: where the history is cut, the two pieces would
   not have fitted into one file, and every piece that was begun fits into one, or is a single write.
   */
  lemma {:induction false} CutOnlyWhereFull(maxSize: int, h: Pieces, writes: seq<WriteCall>)
    requires h != []
    ensures var g := HistoryOf(maxSize, h, writes);
      && |g| >= |h|
      && (forall i {:trigger Cut(maxSize, g, i)} | |h| - 1 <= i < |g| - 1 :: Cut(maxSize, g, i))
      && (forall i {:trigger Fits(maxSize, g[i], writes)} | |h| <= i < |g| :: Fits(maxSize, g[i], writes))
  {
    if writes != [] {
      var front, w := writes[..|writes| - 1], writes[|writes| - 1];
      CutOnlyWhereFull(maxSize, h, front);
      var g, g' := HistoryOf(maxSize, h, front), HistoryOf(maxSize, h, writes);
      forall i | |h| - 1 <= i < |g'| - 1 ensures Cut(maxSize, g', i) {
        assert i < |g| - 1 ==> Cut(maxSize, g, i);
      }
      forall i | |h| <= i < |g'| ensures Fits(maxSize, g'[i], writes) {
        if i < |g| {
          FitsStill(maxSize, g[i], front, w);
        }
        assert i == |g| ==> w.p == g'[i];
      }
    }
  }

  ghost predicate Cut(maxSize: int, g: Pieces, i: int) {
    0 <= i < |g| - 1 && |g[i]| + |g[i + 1]| > maxSize
  }

  ghost predicate Fits(maxSize: int, piece: Bytes, writes: seq<WriteCall>) {
    |piece| <= maxSize || exists k :: 0 <= k < |writes| && writes[k].p == piece
  }

  lemma FitsStill(maxSize: int, piece: Bytes, writes: seq<WriteCall>, w: WriteCall)
    requires Fits(maxSize, piece, writes)
    ensures Fits(maxSize, piece, writes + [w])
  {
    if |piece| > maxSize {
      var k :| 0 <= k < |writes| && writes[k].p == piece;
      assert (writes + [w])[k] == writes[k];
    }
  }

  lemma {:induction false} SuffixFlattens(s: Pieces, t: Pieces)
    requires IsSuffix(s, t)
    ensures IsSuffix(Flatten(s), Flatten(t))
  {
    if s == [] {
      assert Flatten(t)[|Flatten(t)|..] == [];
    } else {
      assert s[|s| - 1] == t[|t| - 1];
      var s', t' := s[..|s| - 1], t[..|t| - 1];
      assert s' == t'[|t'| - |s'|..];
      SuffixFlattens(s', t');
      assert Flatten(t) == Flatten(t') + s[|s| - 1];
    }
  }

  /** The number of backups allowed at any time: those found at first, or the limit. */
  ghost predicate FewEnough(ages: seq<string>, first: seq<string>, maxBackups: nat) {
    |ages| <= maxBackups || (|ages| == |first| && ages == first)
  }

  lemma {:induction false} RunRetains(maxSize: int, maxBackups: nat, run: seq<Log>, writes: seq<WriteCall>, first: seq<string>)
    returns (ages: seq<string>)
    requires IsLogRun(maxSize, maxBackups, run, writes) && AgeOrdered(run[0], first)
    ensures Retains(run[|writes|], ages, HistoryOf(maxSize, OnDisk(run[0], first), writes))
    ensures FewEnough(ages, first, maxBackups)
  {
    var h := OnDisk(run[0], first);
    ages := first;
    if writes != [] {
      var n := |writes| - 1;
      var before := RunRetains(maxSize, maxBackups, run[..n + 1], writes[..n], first);
      assert TimelyWrite(maxSize, maxBackups, run[n], writes[n], run[n + 1]);
      ages := AgesAfterWrite(maxSize, maxBackups, run[n], before, writes[n]);
      WriteRetains(maxSize, maxBackups, run[n], before, writes[n], run[n + 1], HistoryOf(maxSize, h, writes[..n]));
    }
  }

  /**
   After any run of timely writes, the backups in order of age and then the
   current file are the last pieces of the history, cut only where rotations
   happened; so the bytes on disk are a suffix of all bytes there ever were.
   There are no more backups than allowed unless no rotation has happened yet.
   */
  lemma RotationKeepsSuffix(maxSize: int, maxBackups: nat, run: seq<Log>, writes: seq<WriteCall>, first: seq<string>)
    returns (ages: seq<string>)
    requires IsLogRun(maxSize, maxBackups, run, writes) && AgeOrdered(run[0], first)
    ensures Retains(run[|writes|], ages, HistoryOf(maxSize, OnDisk(run[0], first), writes))
    ensures IsSuffix(Flatten(OnDisk(run[|writes|], ages)), Flatten(OnDisk(run[0], first)) + BytesOf(writes))
    ensures FewEnough(ages, first, maxBackups)
  {
    ages := RunRetains(maxSize, maxBackups, run, writes, first);
    var h := OnDisk(run[0], first);
    HistoryIsComplete(maxSize, h, writes);
    SuffixFlattens(OnDisk(run[|writes|], ages), HistoryOf(maxSize, h, writes));
  }

  // ---- stamps that collide ------------------------------------------------------------------

  function Smaller(a: nat, b: nat): nat {
    if a <= b then a else b
  }

  /**
   Stamps have a resolution of one second. A rotation gains a backup exactly when
   there is room and its stamp is new; otherwise it overwrites the backup of that stamp, or drops one.
   */
  lemma CollisionOverwrites(maxBackups: nat, l: Log, now: int, stamp: string, l': Log)
    requires Rotated(maxBackups, l, now, stamp, l')
    ensures |l'.backups| == Smaller(maxBackups, |l.backups| + (if stamp in l.backups then 0 else 1))
    ensures stamp in l.backups && |l.backups| <= maxBackups ==> l'.backups == l.backups[stamp := l.current]
  {
    var full := l.backups[stamp := l.current];
    assert full.Keys == l.backups.Keys + {stamp};
    assert |full| == |full.Keys| && |l.backups| == |l.backups.Keys|;
    if stamp in l.backups {
      assert full.Keys == l.backups.Keys;
      if |l.backups| <= maxBackups {
        SubsetSize(l'.backups.Keys, full.Keys);
        assert l'.backups == full;
      }
    }
  }

  /** The order of age after the backup at position `j` is overwritten with the newest file. */
  ghost function Renewed(ages: seq<string>, j: nat): seq<string>
    requires j < |ages|
  {
    ages[..j] + ages[j + 1..] + [ages[j]]
  }

  lemma RenewedElements(ages: seq<string>, j: nat)
    requires Distinct(ages) && j < |ages|
    ensures Distinct(Renewed(ages, j)) && Elements(Renewed(ages, j)) == Elements(ages)
  {
    var all := Renewed(ages, j);
    forall a | a in ages ensures a in all {
      var i :| 0 <= i < |ages| && ages[i] == a;
      assert i < j ==> all[i] == a;
      assert i > j ==> all[i - 1] == a;
      assert i == j ==> all[|ages| - 1] == a;
    }
  }

  /** Where the stamp at position `i` after the renewal was before. */
  function Before(n: nat, j: nat, i: nat): nat {
    if i < j then i else if i < n - 1 then i + 1 else j
  }

  lemma RenewedAt(l: Log, ages: seq<string>, j: nat, now: int, i: nat)
    requires AgeOrdered(l, ages) && j < |ages| && i < |ages| - 1
    ensures var (l', a) := (AsideUnder(l, ages[j], now), Renewed(ages, j)[i]);
      a == ages[Before(|ages|, j, i)] && a != ages[j] && a in l.backups && a in l'.backups && l'.backups[a] == l.backups[a]
  {
    assert ages[Before(|ages|, j, i)] in Elements(ages);
  }

  lemma AgesSetAsideOver(l: Log, ages: seq<string>, j: nat, now: int)
    requires AgeOrdered(l, ages) && j < |ages| && l.current.modTime < now
    ensures AgeOrdered(AsideUnder(l, ages[j], now), Renewed(ages, j))
  {
    var l', all, n := AsideUnder(l, ages[j], now), Renewed(ages, j), |ages|;
    RenewedElements(ages, j);
    assert ages[j] in Elements(ages);
    assert l'.backups.Keys == l.backups.Keys;
    forall i, m | 0 <= i < m < n ensures Older(l', all, i, m) {
      RenewedAt(l, ages, j, now, i);
      if m < n - 1 {
        RenewedAt(l, ages, j, now, m);
        assert Older(l, ages, Before(n, j, i), Before(n, j, m));
      } else {
        assert OlderThanCurrent(l, ages, Before(n, j, i));
      }
    }
    forall i | 0 <= i < n ensures OlderThanCurrent(l', all, i) {
      if i < n - 1 {
        RenewedAt(l, ages, j, now, i);
        assert OlderThanCurrent(l, ages, Before(n, j, i));
      }
    }
  }

  lemma DiskSetAsideOver(l: Log, ages: seq<string>, j: nat, now: int)
    requires AgeOrdered(l, ages) && j < |ages|
    ensures OnDisk(AsideUnder(l, ages[j], now), Renewed(ages, j)) == OnDisk(l, ages)[..j] + OnDisk(l, ages)[j + 1..] + [[]]
  {
    var n, disk, disk' := |ages|, OnDisk(l, ages), OnDisk(AsideUnder(l, ages[j], now), Renewed(ages, j));
    forall i | 0 <= i < n - 1 ensures disk'[i] == disk[Before(n, j, i)] {
      RenewedAt(l, ages, j, now, i);
    }
    assert disk'[n - 1] == disk[n];
    assert disk' == disk[..j] + disk[j + 1..] + [[]];
  }

  /** Taking piece `j` out, the last pieces are as before exactly if the pieces up to `j` among them are all alike. */
  lemma PieceTakenOut(disk: Pieces, h: Pieces, j: nat, d: nat, x: Bytes)
    requires IsSuffix(disk, h) && j < |disk| && d < |disk|
    ensures IsSuffix((disk[..j] + disk[j + 1..] + [x])[d..], h + [x]) <==> forall i | d <= i < j :: disk[i] == disk[i + 1]
  {
    var n := |disk|;
    var kept, end := (disk[..j] + disk[j + 1..] + [x])[d..], (disk + [x])[d + 1..];
    assert |kept| == |end| == n - d;
    assert (h + [x])[|h| + 1 - (n - d)..] == end;
    assert forall i | 0 <= i < n - d :: kept[i] == if d + i < j then disk[d + i] else (disk + [x])[d + i + 1];
    assert forall i | 0 <= i < n - d :: end[i] == (disk + [x])[d + i + 1];
    if kept == end {
      forall i | d <= i < j ensures disk[i] == disk[i + 1] {
        assert kept[i - d] == end[i - d];
      }
    }
    if forall i | d <= i < j :: disk[i] == disk[i + 1] {
      assert kept == end;
    }
  }

  lemma DiskAfterCollision(maxBackups: nat, l: Log, ages: seq<string>, j: nat, now: int, l': Log)
    requires AgeOrdered(l, ages) && j < |ages| && l.current.modTime < now
    requires Rotated(maxBackups, l, now, ages[j], l')
    ensures var d := Dropped(|ages|, maxBackups);
      && AgeOrdered(l', Renewed(ages, j)[d..])
      && OnDisk(l', Renewed(ages, j)[d..]) == (OnDisk(l, ages)[..j] + OnDisk(l, ages)[j + 1..] + [[]])[d..]
  {
    var full, all := AsideUnder(l, ages[j], now), Renewed(ages, j);
    assert |all| == |ages|;
    AgesSetAsideOver(l, ages, j, now);
    DiskSetAsideOver(l, ages, j, now);
    assert full.backups == l.backups[ages[j] := l.current] && full.current == l'.current;
    PrunedOnDisk(maxBackups, full, all, l');
  }

  /**
   A rotation whose stamp is in use loses the backup of that stamp. What is on disk
   is still the end of the history exactly if, among the backups that pruning
   leaves, all up to and including the next younger piece hold the same bytes.
   */
  lemma RotationCollides(maxBackups: nat, l: Log, ages: seq<string>, j: nat, now: int, l': Log, h: Pieces)
    requires Retains(l, ages, h) && j < |ages| && l.current.modTime < now
    requires Rotated(maxBackups, l, now, ages[j], l')
    ensures var d := Dropped(|ages|, maxBackups);
      && AgeOrdered(l', Renewed(ages, j)[d..])
      && (Retains(l', Renewed(ages, j)[d..], h + [[]]) <==> forall i | d <= i < j :: OnDisk(l, ages)[i] == OnDisk(l, ages)[i + 1])
  {
    DiskAfterCollision(maxBackups, l, ages, j, now, l');
    PieceTakenOut(OnDisk(l, ages), h, j, Dropped(|ages|, maxBackups), []);
  }

  // ---- the same in bytes ------------------------------------------------------------------------

  lemma {:induction false} FlattenJoin(a: Pieces, b: Pieces)
    ensures Flatten(a + b) == Flatten(a) + Flatten(b)
  {
    if b == [] {
      assert a + b == a;
    } else {
      var b', x := b[..|b| - 1], b[|b| - 1];
      assert (a + b)[..|a + b| - 1] == a + b';
      FlattenJoin(a, b');
      assert Flatten(a) + (Flatten(b') + x) == Flatten(a) + Flatten(b') + x;
    }
  }

  lemma FlattenOne(x: Bytes)
    ensures Flatten([x]) == x
  {
    assert [x][..0] == [] && [] + x == x;
  }

  /** A common tail makes no difference. */
  lemma CommonTail(s: Bytes, t: Bytes, tail: Bytes)
    ensures IsSuffix(s + tail, t + tail) <==> IsSuffix(s, t)
  {
    if |s| <= |t| {
      assert (t + tail)[|t| - |s|..] == t[|t| - |s|..] + tail;
      assert IsSuffix(s + tail, t + tail) ==> s == (s + tail)[..|s|] == (t[|t| - |s|..] + tail)[..|s|];
    }
  }

  /** Only the end that is as long decides. */
  lemma EndDecides(s: Bytes, t: Bytes, front: Bytes)
    requires |s| <= |t|
    ensures IsSuffix(s, front + t) <==> IsSuffix(s, t)
  {
    assert (front + t)[|front + t| - |s|..] == t[|t| - |s|..];
  }

  /** The kept bytes before a lost piece are the end of what there was exactly if they repeat that piece. */
  ghost predicate Repeats(kept: Bytes, lost: Bytes) {
    IsSuffix(kept, kept + lost)
  }

  lemma FlattenParts(front: Pieces, kept: Pieces, lost: Bytes, rest: Pieces)
    ensures Flatten(kept + rest) == Flatten(kept) + Flatten(rest)
    ensures Flatten(front + kept + [lost] + rest) == Flatten(front) + (Flatten(kept) + lost) + Flatten(rest)
  {
    FlattenOne(lost);
    FlattenJoin(kept, rest);
    FlattenJoin(front + kept + [lost], rest);
    FlattenJoin(front + kept, [lost]);
    FlattenJoin(front, kept);
    assert Flatten(front) + Flatten(kept) + lost == Flatten(front) + (Flatten(kept) + lost);
  }

  lemma PartTakenOut(front: Pieces, kept: Pieces, lost: Bytes, rest: Pieces)
    ensures IsSuffix(Flatten(kept + rest), Flatten(front + kept + [lost] + rest)) <==> Repeats(Flatten(kept), lost)
  {
    FlattenParts(front, kept, lost, rest);
    CommonTail(Flatten(kept), Flatten(front) + (Flatten(kept) + lost), Flatten(rest));
    EndDecides(Flatten(kept), Flatten(kept) + lost, Flatten(front));
  }

  lemma AroundPiece(disk: Pieces, j: nat, d: nat)
    requires d <= j < |disk|
    ensures disk == disk[..d] + disk[d..j] + [disk[j]] + disk[j + 1..]
    ensures (disk[..j] + disk[j + 1..] + [[]])[d..] == disk[d..j] + (disk[j + 1..] + [[]])
  {
  }

  lemma BytesTakenOut(disk: Pieces, h: Pieces, j: nat, d: nat)
    requires IsSuffix(disk, h) && d <= j < |disk|
    ensures IsSuffix(Flatten((disk[..j] + disk[j + 1..] + [[]])[d..]), Flatten(h + [[]])) <==>
      Repeats(Flatten(disk[d..j]), disk[j])
  {
    var before := h[..|h| - |disk|];
    var kept, lost, rest := disk[d..j], [disk[j]], disk[j + 1..];
    AroundPiece(disk, j, d);
    assert h == before + disk;
    assert h + [[]] == (before + disk[..d]) + kept + lost + (rest + [[]]);
    PartTakenOut(before + disk[..d], kept, disk[j], rest + [[]]);
  }

  /** The bytes on disk are a suffix of all bytes there ever were. */
  ghost predicate BytesRetained(l: Log, ages: seq<string>, h: Pieces) {
    IsSuffix(Flatten(OnDisk(l, ages)), Flatten(h))
  }

  /**
   In terms of bytes, a rotation whose stamp is in use leaves the end of the log exactly if the kept bytes
   before the lost piece repeat it. If pruning removes more than that piece, nothing is lost by the collision.
   */
  lemma BytesCollide(maxBackups: nat, l: Log, ages: seq<string>, j: nat, now: int, l': Log, h: Pieces)
    requires Retains(l, ages, h) && j < |ages| && l.current.modTime < now
    requires Rotated(maxBackups, l, now, ages[j], l')
    ensures var d := Dropped(|ages|, maxBackups);
      BytesRetained(l', Renewed(ages, j)[d..], h + [[]]) <==>
        d > j || Repeats(Flatten(OnDisk(l, ages)[d..j]), OnDisk(l, ages)[j])
  {
    var d := Dropped(|ages|, maxBackups);
    DiskAfterCollision(maxBackups, l, ages, j, now, l');
    if d > j {
      PieceTakenOut(OnDisk(l, ages), h, j, d, []);
      SuffixFlattens(OnDisk(l', Renewed(ages, j)[d..]), h + [[]]);
    } else {
      BytesTakenOut(OnDisk(l, ages), h, j, d);
    }
  }

  /** Extending the last piece on disk and in the history alike neither makes nor breaks the agreement. */
  lemma AppendKeepsVerdict(l: Log, ages: seq<string>, h: Pieces, p: Bytes, now: int)
    requires AgeOrdered(l, ages) && l.current == File([], now)
    ensures AgeOrdered(Appended(l, p, now), ages)
    ensures Retains(Appended(l, p, now), ages, h + [p]) <==> Retains(l, ages, h + [[]])
  {
    var l' := Appended(l, p, now);
    forall i, j | 0 <= i < j < |ages| ensures Older(l', ages, i, j) {
      assert Older(l, ages, i, j);
    }
    forall i | 0 <= i < |ages| ensures OlderThanCurrent(l', ages, i) {
      assert OlderThanCurrent(l, ages, i);
    }
    var n := |ages|;
    var disk, disk' := OnDisk(l, ages), OnDisk(l', ages);
    assert disk'[..n] == disk[..n] && disk'[n] == p && disk[n] == [];
    if n <= |h| {
      assert (h + [p])[|h| - n..] == h[|h| - n..] + [p];
      assert (h + [[]])[|h| - n..] == h[|h| - n..] + [[]];
      assert disk == disk[..n] + [[]] && disk' == disk[..n] + [p];
      assert (disk == h[|h| - n..] + [[]]) <==> disk[..n] == h[|h| - n..];
      assert (disk' == h[|h| - n..] + [p]) <==> disk[..n] == h[|h| - n..];
    }
  }

  /** The same for the write that rotates. */
  lemma CollisionLosesPiece(maxSize: int, maxBackups: nat, l: Log, ages: seq<string>, j: nat, w: WriteCall, l': Log, h: Pieces)
    requires Retains(l, ages, h) && j < |ages| && Overflows(maxSize, |l.current.content|, w.p)
    requires Written(maxSize, maxBackups, l, w, l') && w.stamp == ages[j] && l.current.modTime < w.now
    ensures var d := Dropped(|ages|, maxBackups);
      && AgeOrdered(l', Renewed(ages, j)[d..])
      && (Retains(l', Renewed(ages, j)[d..], Grow(maxSize, h, w.p)) <==>
            forall i | d <= i < j :: OnDisk(l, ages)[i] == OnDisk(l, ages)[i + 1])
  {
    var disk := OnDisk(l, ages);
    assert h[|h| - 1] == disk[|disk| - 1] == l.current.content;
    var middle :| Rotated(maxBackups, l, w.now, w.stamp, middle) && l' == Appended(middle, w.p, w.now);
    RotationCollides(maxBackups, l, ages, j, w.now, middle, h);
    AppendKeepsVerdict(middle, Renewed(ages, j)[Dropped(|ages|, maxBackups)..], h, w.p, w.now);
  }

  lemma AppendKeepsBytes(l: Log, ages: seq<string>, h: Pieces, p: Bytes, now: int)
    requires l.current == File([], now)
    ensures BytesRetained(Appended(l, p, now), ages, h + [p]) <==> BytesRetained(l, ages, h + [[]])
  {
    var backups := OnDisk(l, ages)[..|ages|];
    assert [] + p == p;
    assert OnDisk(l, ages) == backups + [[]] && OnDisk(Appended(l, p, now), ages) == backups + [p];
    FlattenOne([]);
    FlattenOne(p);
    FlattenJoin(backups, [[]]);
    FlattenJoin(backups, [p]);
    FlattenJoin(h, [[]]);
    FlattenJoin(h, [p]);
    assert Flatten(backups) + [] == Flatten(backups) && Flatten(h) + [] == Flatten(h);
    CommonTail(Flatten(backups), Flatten(h), p);
  }

  /** The write that rotates, in terms of bytes. */
  lemma CollisionLosesBytes(maxSize: int, maxBackups: nat, l: Log, ages: seq<string>, j: nat, w: WriteCall, l': Log, h: Pieces)
    requires Retains(l, ages, h) && j < |ages| && Overflows(maxSize, |l.current.content|, w.p)
    requires Written(maxSize, maxBackups, l, w, l') && w.stamp == ages[j] && l.current.modTime < w.now
    ensures var d := Dropped(|ages|, maxBackups);
      BytesRetained(l', Renewed(ages, j)[d..], Grow(maxSize, h, w.p)) <==>
        d > j || Repeats(Flatten(OnDisk(l, ages)[d..j]), OnDisk(l, ages)[j])
  {
    var disk := OnDisk(l, ages);
    assert h[|h| - 1] == disk[|disk| - 1] == l.current.content;
    var middle :| Rotated(maxBackups, l, w.now, w.stamp, middle) && l' == Appended(middle, w.p, w.now);
    BytesCollide(maxBackups, l, ages, j, w.now, middle, h);
    AppendKeepsBytes(middle, Renewed(ages, j)[Dropped(|ages|, maxBackups)..], h, w.p, w.now);
  }

  /** Two backups, the younger holding `lost`, and a current file; all that was ever written is there. */
  function Crowded(lost: Bytes): Log {
    Log(File([3], 2), map["0" := File([1], 0), "1" := File(lost, 1)])
  }

  lemma CrowdedLog(lost: Bytes)
    ensures Retains(Crowded(lost), ["0", "1"], [[1], lost, [3]])
    ensures OnDisk(Crowded(lost), ["0", "1"]) == [[1], lost, [3]]
    ensures Rotated(2, Crowded(lost), 3, "1", AsideUnder(Crowded(lost), "1", 3))
  {
    var l, ages := Crowded(lost), ["0", "1"];
    assert Older(l, ages, 0, 1) && OlderThanCurrent(l, ages, 0) && OlderThanCurrent(l, ages, 1);
    assert Elements(ages) == {"0", "1"} == l.backups.Keys;
    assert AsideUnder(l, "1", 3).backups.Keys == l.backups.Keys;
    assert |l.backups.Keys| == 2;
  }

  lemma OnlyNothingRepeats(lost: Bytes)
    requires lost in {[], [2]}
    ensures Repeats([1], lost) <==> lost == []
  {
    assert [1] + [] == [1];
    assert ([1] + [2])[1..] == [2];
  }

  /**
   The collision lemmas at an input. If the lost piece was not empty, a hole is left. If it was,
   the pieces differ, but the bytes are all there.
   */
  lemma CrowdedCollision(lost: Bytes)
    requires lost in {[], [2]}
    ensures var l' := AsideUnder(Crowded(lost), "1", 3);
      && Rotated(2, Crowded(lost), 3, "1", l')
      && !Retains(l', ["0", "1"], [[1], lost, [3]] + [[]])
      && (BytesRetained(l', ["0", "1"], [[1], lost, [3]] + [[]]) <==> lost == [])
  {
    var l, ages, h := Crowded(lost), ["0", "1"], [[1], lost, [3]];
    CrowdedLog(lost);
    assert Renewed(ages, 1) == ages && ages[0..] == ages;
    assert h[0..1] == [[1]] && h[0] != h[1];
    FlattenOne([1]);
    OnlyNothingRepeats(lost);
    RotationCollides(2, l, ages, 1, 3, AsideUnder(l, "1", 3), h);
    BytesCollide(2, l, ages, 1, 3, AsideUnder(l, "1", 3), h);
  }

  // ---- two rotations within a second ----------------------------------------------------------

  /** The first write of the run rotates, and no other does. */
  ghost predicate RotatesOnce(maxSize: int, run: seq<Log>, writes: seq<WriteCall>) {
    && |run| == |writes| + 1
    && forall k | 0 <= k < |writes| :: Overflows(maxSize, |run[k].current.content|, writes[k].p) <==> k == 0
  }

  lemma {:induction false} RotatedOnce(maxSize: int, maxBackups: nat, run: seq<Log>, writes: seq<WriteCall>, first: seq<string>)
    requires IsLogRun(maxSize, maxBackups, run, writes) && AgeOrdered(run[0], first)
    requires writes != [] && RotatesOnce(maxSize, run, writes)
    ensures Retains(run[|writes|], AgesAfter(first, writes[0].stamp, maxBackups),
                    HistoryOf(maxSize, OnDisk(run[0], first), writes))
  {
    var n, h := |writes| - 1, OnDisk(run[0], first);
    var before := if n == 0 then first else AgesAfter(first, writes[0].stamp, maxBackups);
    if n > 0 {
      RotatedOnce(maxSize, maxBackups, run[..n + 1], writes[..n], first);
    }
    assert TimelyWrite(maxSize, maxBackups, run[n], writes[n], run[n + 1]);
    WriteRetains(maxSize, maxBackups, run[n], before, writes[n], run[n + 1], HistoryOf(maxSize, h, writes[..n]));
  }

  /**
   Two rotations under one stamp, with any writes between them that do not rotate:
   the second overwrites the file that the first set aside. What remains is
   still the end of the history exactly if all backups there are before the second rotation hold the same bytes.
   */
  lemma TwoRotationsOneStamp(maxSize: int, maxBackups: nat, run: seq<Log>, writes: seq<WriteCall>, first: seq<string>,
                             w: WriteCall, l': Log)
    requires IsLogRun(maxSize, maxBackups, run, writes) && AgeOrdered(run[0], first) && maxBackups > 0
    requires writes != [] && RotatesOnce(maxSize, run, writes)
    requires var l := run[|writes|];
      Overflows(maxSize, |l.current.content|, w.p) && l.current.modTime < w.now && Written(maxSize, maxBackups, l, w, l')
    requires w.stamp == writes[0].stamp
    ensures var ages := AgesAfter(first, w.stamp, maxBackups);
      && AgeOrdered(l', ages)
      && (Retains(l', ages, HistoryOf(maxSize, OnDisk(run[0], first), writes + [w])) <==>
            forall i | 0 <= i < |ages| :: OnDisk(run[|writes|], ages)[i] == OnDisk(run[|writes|], ages)[|ages| - 1])
      && (BytesRetained(l', ages, HistoryOf(maxSize, OnDisk(run[0], first), writes + [w])) <==>
            Repeats(Flatten(OnDisk(run[|writes|], ages)[..|ages| - 1]), OnDisk(run[|writes|], ages)[|ages| - 1]))
  {
    var l, ages := run[|writes|], AgesAfter(first, w.stamp, maxBackups);
    var h := HistoryOf(maxSize, OnDisk(run[0], first), writes);
    RotatedOnce(maxSize, maxBackups, run, writes, first);
    assert (writes + [w])[..|writes|] == writes;
    NewestCollides(maxSize, maxBackups, l, ages, w, l', h);
  }

  lemma NewestCollides(maxSize: int, maxBackups: nat, l: Log, ages: seq<string>, w: WriteCall, l': Log, h: Pieces)
    requires Retains(l, ages, h) && 0 < |ages| <= maxBackups && Overflows(maxSize, |l.current.content|, w.p)
    requires Written(maxSize, maxBackups, l, w, l') && w.stamp == ages[|ages| - 1] && l.current.modTime < w.now
    ensures AgeOrdered(l', ages)
    ensures Retains(l', ages, Grow(maxSize, h, w.p)) <==>
      forall i | 0 <= i < |ages| :: OnDisk(l, ages)[i] == OnDisk(l, ages)[|ages| - 1]
    ensures BytesRetained(l', ages, Grow(maxSize, h, w.p)) <==>
      Repeats(Flatten(OnDisk(l, ages)[..|ages| - 1]), OnDisk(l, ages)[|ages| - 1])
  {
    var j := |ages| - 1;
    CollisionLosesPiece(maxSize, maxBackups, l, ages, j, w, l', h);
    CollisionLosesBytes(maxSize, maxBackups, l, ages, j, w, l', h);
    assert Renewed(ages, j)[0..] == ages;
    assert OnDisk(l, ages)[0..j] == OnDisk(l, ages)[..j];
    AllAlike(OnDisk(l, ages), j);
  }

  lemma {:induction false} AllAlike(s: Pieces, j: nat)
    requires j < |s|
    ensures (forall i | 0 <= i < j :: s[i] == s[i + 1]) <==> forall i | 0 <= i <= j :: s[i] == s[j]
  {
    if j > 0 {
      AllAlike(s, j - 1);
      assert (forall i | 0 <= i < j :: s[i] == s[i + 1]) ==> s[j - 1] == s[j - 1 + 1];
    }
  }
}
