/** Two-pass clean-up of the log directory: by age, then by total size. */
module LogCleanup {
  import opened StableSort

  const MAX_TOTAL_SIZE := 1024 * 1024 * 1024
  const TARGET_SIZE := 512 * 1024 * 1024
  const DAY_SECONDS := 24 * 60 * 60

  datatype LogFile = LogFile(path: string, size: nat, modified: int)

  function TotalSize(files: seq<LogFile>): nat {
    if files == [] then 0 else TotalSize(files[..|files| - 1]) + files[|files| - 1].size
  }

  function Cutoff(now: nat, daysToKeep: nat): nat {
    if now >= daysToKeep * DAY_SECONDS then now - daysToKeep * DAY_SECONDS else 0
  }

  /** Which deletions the file system would refuse. */
  datatype Refusals = Refusals(first: set<string>, second: set<string>)

  /** What the clean-up leaves and reports. */
  datatype Report = Report(surviving: seq<LogFile>, deleted: nat, freed: nat)

  lemma TotalAppend(files: seq<LogFile>, f: LogFile)
    ensures TotalSize(files + [f]) == TotalSize(files) + f.size
  {
    assert (files + [f])[..|files|] == files;
  }

  lemma {:induction false} TotalJoin(a: seq<LogFile>, b: seq<LogFile>)
    ensures TotalSize(a + b) == TotalSize(a) + TotalSize(b)
    decreases |b|
  {
    if b == [] {
      assert a + b == a;
    } else {
      assert (a + b)[..|a + b| - 1] == a + b[..|b| - 1];
      TotalJoin(a, b[..|b| - 1]);
    }
  }

  lemma {:induction false} TotalOfMultiset(a: seq<LogFile>, b: seq<LogFile>)
    requires multiset(a) == multiset(b)
    ensures TotalSize(a) == TotalSize(b)
    decreases |a|
  {
    if a == [] {
      assert |multiset(b)| == 0;
    } else {
      var last := a[|a| - 1];
      assert last in multiset(b);
      var k :| 0 <= k < |b| && b[k] == last;
      var b' := b[..k] + b[k + 1..];
      assert b == b[..k] + [last] + b[k + 1..];
      assert a == a[..|a| - 1] + [last];
      assert multiset(b') == multiset(b) - multiset{last};
      assert multiset(a[..|a| - 1]) == multiset(a) - multiset{last};
      TotalOfMultiset(a[..|a| - 1], b');
      TotalJoin(b[..k], b[k + 1..]);
      TotalJoin(b[..k] + [last], b[k + 1..]);
      TotalAppend(b[..k], last);
    }
  }

  predicate Older(x: LogFile, y: LogFile) {
    x.modified < y.modified
  }

  // ---- first pass ----

  /** The files the first pass keeps: recent ones, and old ones that could not be deleted. */
  function Kept(files: seq<LogFile>, cutoff: nat, refused: set<string>): seq<LogFile> {
    if files == [] then []
    else
      var last := files[|files| - 1];
      Kept(files[..|files| - 1], cutoff, refused) +
          (if last.modified >= cutoff || last.path in refused then [last] else [])
  }

  method DeleteExpired(files: seq<LogFile>, cutoff: nat, refused: set<string>)
    returns (kept: seq<LogFile>, deleted: nat, freed: nat)
    ensures kept == Kept(files, cutoff, refused)
    ensures freed + TotalSize(kept) == TotalSize(files)
    ensures deleted + |kept| == |files|
  {
    hide Kept, TotalSize;
    kept, deleted, freed := [], 0, 0;
    NothingKept(cutoff, refused);
    assert files[..0] == [];
    for i := 0 to |files|
      invariant kept == Kept(files[..i], cutoff, refused)
      invariant freed + TotalSize(kept) == TotalSize(files[..i])
      invariant deleted + |kept| == i
    {
      assert files[..i + 1] == files[..i] + [files[i]];
      KeptAppend(files[..i], files[i], cutoff, refused);
      TotalAppend(kept, files[i]);
      TotalAppend(files[..i], files[i]);
      if files[i].modified < cutoff {
        if files[i].path in refused {
          kept := kept + [files[i]];
        } else {
          deleted := deleted + 1;
          freed := freed + files[i].size;
        }
      } else {
        kept := kept + [files[i]];
      }
    }
    assert files[..|files|] == files;
  }

  lemma KeptAppend(files: seq<LogFile>, f: LogFile, cutoff: nat, refused: set<string>)
    ensures Kept(files + [f], cutoff, refused) ==
            if f.modified >= cutoff || f.path in refused then Kept(files, cutoff, refused) + [f]
            else Kept(files, cutoff, refused)
  {
    assert (files + [f])[..|files|] == files;
  }

  lemma NothingKept(cutoff: nat, refused: set<string>)
    ensures Kept([], cutoff, refused) == [] && TotalSize([]) == 0
  {}

  // ---- second pass ----

  /** Those of `files` that could not be deleted. */
  function Stuck(files: seq<LogFile>, refused: set<string>): seq<LogFile> {
    if files == [] then []
    else
      var last := files[|files| - 1];
      Stuck(files[..|files| - 1], refused) + (if last.path in refused then [last] else [])
  }

  /** What is left after trying the first `n`. */
  function Left(sorted: seq<LogFile>, refused: set<string>, n: nat): seq<LogFile>
    requires n <= |sorted|
  {
    Stuck(sorted[..n], refused) + sorted[n..]
  }

  /** The second pass over the sorted files tried the first `n` of them. */
  ghost predicate Trimmed(sorted: seq<LogFile>, refused: set<string>, n: nat, surviving: seq<LogFile>) {
    && n <= |sorted|
    && surviving == Left(sorted, refused, n)
    && (n == |sorted| || TotalSize(surviving) <= 536_870_912)
    && (forall m :: 0 <= m < n ==> TotalSize(Left(sorted, refused, m)) > 536_870_912)
  }

  lemma LeftStep(sorted: seq<LogFile>, refused: set<string>, n: nat)
    requires n < |sorted|
    ensures Stuck(sorted[..n + 1], refused) == Stuck(sorted[..n], refused) +
            (if sorted[n].path in refused then [sorted[n]] else [])
    ensures if sorted[n].path in refused then Left(sorted, refused, n + 1) == Left(sorted, refused, n)
            else && TotalSize(Left(sorted, refused, n)) == TotalSize(Left(sorted, refused, n + 1)) + sorted[n].size
                 && |Left(sorted, refused, n)| == |Left(sorted, refused, n + 1)| + 1
  {
    var front := Stuck(sorted[..n], refused);
    assert sorted[..n + 1][..n] == sorted[..n];
    assert Stuck(sorted[..n + 1], refused) == front + (if sorted[n].path in refused then [sorted[n]] else []);
    hide Stuck, TotalSize;
    assert sorted[n..] == [sorted[n]] + sorted[n + 1..];
    TotalJoin(front, sorted[n + 1..]);
    TotalJoin(front + [sorted[n]], sorted[n + 1..]);
    TotalAppend(front, sorted[n]);
    assert front + sorted[n..] == front + [sorted[n]] + sorted[n + 1..];
    assert front + [] == front;
  }

  lemma LeftNone(sorted: seq<LogFile>, refused: set<string>)
    ensures Left(sorted, refused, 0) == sorted && Stuck(sorted[..0], refused) == []
  {}

  /** Oldest first, until the target is met; the running total never goes below zero. */
  method TrimToTarget(sorted: seq<LogFile>, refused: set<string>)
    returns (surviving: seq<LogFile>, deleted: nat, freed: nat, ghost n: nat)
    ensures Trimmed(sorted, refused, n, surviving)
    ensures freed + TotalSize(surviving) == TotalSize(sorted)
    ensures deleted + |surviving| == |sorted|
  {
    hide TotalSize, Stuck, Left;
    var stuck: seq<LogFile> := [];
    var currentTotalSize: nat := SumSizes(sorted);
    deleted, freed := 0, 0;
    var i := 0;
    LeftNone(sorted, refused);
    while i < |sorted| && currentTotalSize > TARGET_SIZE
      invariant 0 <= i <= |sorted|
      invariant stuck == Stuck(sorted[..i], refused)
      invariant currentTotalSize == TotalSize(Left(sorted, refused, i))
      invariant freed + currentTotalSize == TotalSize(sorted)
      invariant deleted + |Left(sorted, refused, i)| == |sorted|
      invariant forall m :: 0 <= m < i ==> TotalSize(Left(sorted, refused, m)) > TARGET_SIZE
    {
      LeftStep(sorted, refused, i);
      if sorted[i].path in refused {
        stuck := stuck + [sorted[i]];
      } else {
        deleted := deleted + 1;
        freed := freed + sorted[i].size;
        currentTotalSize := currentTotalSize - sorted[i].size;
      }
      i := i + 1;
    }
    LeftIs(sorted, refused, i);
    surviving := stuck + sorted[i..];
    n := i;
  }

  lemma LeftIs(sorted: seq<LogFile>, refused: set<string>, n: nat)
    requires n <= |sorted|
    ensures Left(sorted, refused, n) == Stuck(sorted[..n], refused) + sorted[n..]
  {}

  method SumSizes(files: seq<LogFile>) returns (total: nat)
    ensures total == TotalSize(files)
  {
    total := 0;
    for i := 0 to |files|
      invariant total == TotalSize(files[..i])
    {
      assert files[..i + 1][..i] == files[..i];
      total := total + files[i].size;
    }
    assert files[..|files|] == files;
  }

  // ---- the whole clean-up ----

  /** The size pass ran: it tried the `n` oldest of `sorted`. */
  ghost predicate SizePass(kept: seq<LogFile>, refused: set<string>, surviving: seq<LogFile>) {
    exists sorted, perm, n :: IsStableSort(kept, Older, sorted, perm) && Trimmed(sorted, refused, n, surviving)
  }

  method CleanupOldLogs(files: seq<LogFile>, now: nat, daysToKeep: nat, refused: Refusals) returns (r: Report)
    ensures r.freed + TotalSize(r.surviving) == TotalSize(files)
    ensures r.deleted + |r.surviving| == |files|
    ensures var kept := Kept(files, if now >= daysToKeep * 86_400 then now - daysToKeep * 86_400 else 0, refused.first);
            if TotalSize(kept) > 1_073_741_824 then SizePass(kept, refused.second, r.surviving)
            else r.surviving == kept
  {
    hide TotalSize, Kept, Trimmed;
    var kept, deleted, freed := DeleteExpired(files, Cutoff(now, daysToKeep), refused.first);
    var total := SumSizes(kept);
    if total <= MAX_TOTAL_SIZE {
      return Report(kept, deleted, freed);
    }
    var sorted, perm := SliceStable(kept, Older);
    StableSortPermutes(kept, Older, sorted, perm);
    TotalOfMultiset(sorted, kept);
    var surviving, more, moreFreed, n := TrimToTarget(sorted, refused.second);
    return Report(surviving, deleted + more, freed + moreFreed);
  }

  // ---- consequences ----

  lemma {:induction false} StuckAll(files: seq<LogFile>, refused: set<string>)
    ensures forall f :: f in Stuck(files, refused) <==> f in files && f.path in refused
  {
    if files != [] {
      StuckAll(files[..|files| - 1], refused);
      assert files == files[..|files| - 1] + [files[|files| - 1]];
    }
  }

  /** After the size pass the directory is at or below the target, or only files that could
      not be deleted are left. */
  lemma SizePassReaches(kept: seq<LogFile>, refused: set<string>, surviving: seq<LogFile>)
    requires SizePass(kept, refused, surviving)
    ensures TotalSize(surviving) <= 536_870_912 || forall f :: f in surviving ==> f.path in refused
  {
    hide TotalSize, Stuck, IsStableSort;
    var sorted, perm, n :| IsStableSort(kept, Older, sorted, perm) && Trimmed(sorted, refused, n, surviving);
    if n == |sorted| {
      assert sorted[..n] == sorted && sorted[n..] == [];
      StuckAll(sorted, refused);
    }
  }

  lemma {:induction false} NothingStuck(files: seq<LogFile>, refused: set<string>)
    requires forall f :: f in files ==> f.path !in refused
    ensures Stuck(files, refused) == []
  {
    if files != [] {
      assert files[|files| - 1] in files;
      NothingStuck(files[..|files| - 1], refused);
    }
  }

  lemma LeftSuffix(sorted: seq<LogFile>, refused: set<string>, m: nat)
    requires m <= |sorted| && forall f :: f in sorted ==> f.path !in refused
    ensures Left(sorted, refused, m) == sorted[m..]
  {
    NothingStuck(sorted[..m], refused);
  }

  lemma SortedOldestFirst(kept: seq<LogFile>, sorted: seq<LogFile>, perm: seq<nat>)
    requires IsStableSort(kept, Older, sorted, perm)
    ensures multiset(sorted) == multiset(kept)
    ensures forall f :: f in sorted <==> f in kept
    ensures forall i, j :: 0 <= i < j < |sorted| ==> sorted[i].modified <= sorted[j].modified
  {
    StableSortPermutes(kept, Older, sorted, perm);
    assert forall f :: f in sorted <==> f in multiset(sorted);
    forall i, j | 0 <= i < j < |sorted|
      ensures sorted[i].modified <= sorted[j].modified
    {
      assert Precedes(kept, Older, perm[i], perm[j]);
    }
  }

  /** When every deletion succeeds, the size pass removes the shortest oldest-first prefix that
      brings the total to the target; the survivors are the most recent files. */
  lemma ShortestPrefix(kept: seq<LogFile>, refused: set<string>, surviving: seq<LogFile>)
    returns (sorted: seq<LogFile>, n: nat)
    requires SizePass(kept, refused, surviving) && forall f :: f in kept ==> f.path !in refused
    ensures n <= |sorted| && surviving == sorted[n..] && multiset(sorted) == multiset(kept)
    ensures forall i, j :: 0 <= i < j < |sorted| ==> sorted[i].modified <= sorted[j].modified
    ensures TotalSize(sorted[n..]) <= 536_870_912
    ensures forall m :: 0 <= m < n ==> TotalSize(sorted[m..]) > 536_870_912
  {
    var perm;
    sorted, perm, n :| IsStableSort(kept, Older, sorted, perm) && Trimmed(sorted, refused, n, surviving);
    SortedOldestFirst(kept, sorted, perm);
    hide Left, IsStableSort, Stuck, Older;
    forall m: nat | m <= n
      ensures Left(sorted, refused, m) == sorted[m..]
    {
      LeftSuffix(sorted, refused, m);
    }
    assert n == |sorted| ==> sorted[n..] == [];
    assert TotalSize([]) == 0;
  }

  lemma {:induction false} KeptMembers(files: seq<LogFile>, cutoff: nat, refused: set<string>)
    ensures forall f :: f in Kept(files, cutoff, refused) <==> f in files && (f.modified >= cutoff || f.path in refused)
  {
    if files != [] {
      KeptMembers(files[..|files| - 1], cutoff, refused);
      assert files == files[..|files| - 1] + [files[|files| - 1]];
    }
  }
}
