/** The process family that must not be closed: self, its ancestors, its descendants. */
module ProcessFamily {
  import opened Wrappers

  type Pid = nat

  /** One row of the process list. */
  datatype Process = Process(
    pid: Pid,
    parent: Option<Pid>,
    sameExeAsSelf: bool,
    manualMatch: bool,    // its executable is the configured one
    nameHasTools: bool,
    looksLikeTarget: bool,  // name or path of the target, and not one of its helpers
    helper: bool)

  /** The list names each process once. */
  ghost predicate Distinct(procs: seq<Process>) {
    forall i, j :: 0 <= i < j < |procs| ==> procs[i].pid != procs[j].pid
  }

  function ParentOf(procs: seq<Process>, pid: Pid): Option<Pid> {
    if procs == [] then None
    else if procs[|procs| - 1].pid == pid then procs[|procs| - 1].parent
    else ParentOf(procs[..|procs| - 1], pid)
  }

  predicate IsChild(procs: seq<Process>, child: Pid, parent: Pid) {
    exists i :: 0 <= i < |procs| && procs[i].pid == child && procs[i].parent == Some(parent)
  }

  lemma {:induction false} ParentIffChild(procs: seq<Process>, child: Pid, parent: Pid)
    requires Distinct(procs)
    ensures ParentOf(procs, child) == Some(parent) <==> IsChild(procs, child, parent)
  {
    if procs != [] {
      var n := |procs| - 1;
      ParentIffChild(procs[..n], child, parent);
      assert forall i :: 0 <= i < n ==> procs[..n][i] == procs[i];
      assert IsChild(procs, child, parent) <==>
             IsChild(procs[..n], child, parent) || (procs[n].pid == child && procs[n].parent == Some(parent));
      if procs[n].pid == child {
        assert !IsChild(procs[..n], child, parent);
      }
    }
  }

  // ---- the specification ----

  const MAX_DEPTH := 10

  /** The parent chain: element 0 is `pid`, each next one its parent. */
  function Chain(procs: seq<Process>, pid: Pid, depth: nat): seq<Pid>
    decreases depth
  {
    if depth == 0 then [pid]
    else match ParentOf(procs, pid)
         case None => [pid]
         case Some(parent) => [pid] + Chain(procs, parent, depth - 1)
  }

  /** A path downwards from `top` to `bottom`, every step from parent to child. */
  ghost predicate DownPath(procs: seq<Process>, path: seq<Pid>, top: Pid, bottom: Pid) {
    && path != [] && path[0] == top && path[|path| - 1] == bottom
    && forall i :: 0 <= i < |path| - 1 ==> IsChild(procs, path[i + 1], path[i])
  }

  ghost predicate Descends(procs: seq<Process>, top: Pid, bottom: Pid) {
    exists path :: DownPath(procs, path, top, bottom)
  }

  /** No process is its own proper descendant. */
  ghost predicate Acyclic(procs: seq<Process>) {
    forall path, p :: DownPath(procs, path, p, p) ==> |path| == 1
  }

  // ---- paths ----

  lemma ExtendPath(procs: seq<Process>, path: seq<Pid>, top: Pid, bottom: Pid, child: Pid)
    requires DownPath(procs, path, top, bottom) && IsChild(procs, child, bottom)
    ensures DownPath(procs, path + [child], top, child)
  {}

  lemma JoinPaths(procs: seq<Process>, a: seq<Pid>, b: seq<Pid>, top: Pid, middle: Pid, bottom: Pid)
    requires DownPath(procs, a, top, middle) && DownPath(procs, b, middle, bottom)
    ensures DownPath(procs, a + b[1..], top, bottom)
  {
    var path := a + b[1..];
    forall i | 0 <= i < |path| - 1
      ensures IsChild(procs, path[i + 1], path[i])
    {
      if i >= |a| - 1 {
        assert path[i] == b[i - (|a| - 1)] && path[i + 1] == b[i + 1 - (|a| - 1)];
      }
    }
  }

  function Reversed(s: seq<Pid>): (r: seq<Pid>)
    ensures |r| == |s| && forall i :: 0 <= i < |s| ==> r[i] == s[|s| - 1 - i]
  {
    if s == [] then [] else [s[|s| - 1]] + Reversed(s[..|s| - 1])
  }

  ghost predicate Climbs(procs: seq<Process>, chain: seq<Pid>) {
    chain != [] && forall i :: 0 <= i < |chain| - 1 ==> IsChild(procs, chain[i], chain[i + 1])
  }

  lemma ClimbReversed(procs: seq<Process>, chain: seq<Pid>)
    requires Climbs(procs, chain)
    ensures DownPath(procs, Reversed(chain), chain[|chain| - 1], chain[0])
  {}

  // ---- ancestors ----

  lemma {:induction false} ChainStep(procs: seq<Process>, pid: Pid, depth: nat)
    requires Distinct(procs)
    ensures var c := Chain(procs, pid, depth);
            && Climbs(procs, c) && c[0] == pid && |c| <= depth + 1
            && (|c| == depth + 1 ==>
                  Chain(procs, pid, depth + 1) ==
                  c + (match ParentOf(procs, c[depth]) case None => [] case Some(parent) => [parent]))
            && (|c| <= depth ==> Chain(procs, pid, depth + 1) == c && ParentOf(procs, c[|c| - 1]).None?)
    decreases depth
  {
    hide ParentOf, IsChild, Distinct;
    match ParentOf(procs, pid) {
      case None =>
      case Some(parent) =>
        ParentIffChild(procs, pid, parent);
        if depth > 0 {
          ChainStep(procs, parent, depth - 1);
          assert Chain(procs, pid, depth) == [pid] + Chain(procs, parent, depth - 1);
          assert Chain(procs, pid, depth + 1) == [pid] + Chain(procs, parent, depth);
        } else {
          assert Chain(procs, parent, 0) == [parent];
          assert Chain(procs, pid, 1) == [pid] + [parent];
        }
    }
  }

  /** The parents of the chain's elements, when the last one's is the element at `k`. */
  lemma ChainClosed(procs: seq<Process>, self: Pid, d: nat, k: nat, p: Pid)
    requires Distinct(procs) && k <= d
    requires var c := Chain(procs, self, d); |c| == d + 1 && ParentOf(procs, c[d]) == Some(c[k]) && p in c
    ensures ParentOf(procs, p).Some? && ParentOf(procs, p).value in Chain(procs, self, d)
  {
    hide ParentOf, IsChild, Chain;
    var c := Chain(procs, self, d);
    ChainStep(procs, self, d);
    var i :| 0 <= i < |c| && c[i] == p;
    if i < d {
      ParentIffChild(procs, c[i], c[i + 1]);
    }
  }

  /** Once the walk meets a process again, going on finds nothing new. */
  lemma {:induction false} ChainRepeats(procs: seq<Process>, self: Pid, d: nat, k: nat, m: nat)
    requires Distinct(procs) && k <= d <= m
    requires var c := Chain(procs, self, d); |c| == d + 1 && ParentOf(procs, c[d]) == Some(c[k])
    ensures |Chain(procs, self, m)| == m + 1
    ensures forall p :: p in Chain(procs, self, m) <==> p in Chain(procs, self, d)
    decreases m - d
  {
    hide ParentOf, Chain;
    if d < m {
      ChainRepeats(procs, self, d, k, m - 1);
      ChainStep(procs, self, m - 1);
      var c := Chain(procs, self, m - 1);
      assert c[m - 1] in c;
      ChainClosed(procs, self, d, k, c[m - 1]);
    }
  }

  /** The upward walk, at most ten parents, in a table with or without cycles. */
  method Ancestors(procs: seq<Process>, self: Pid) returns (family: set<Pid>)
    requires Distinct(procs)
    ensures forall p :: p in family <==> p in Chain(procs, self, MAX_DEPTH)
  {
    hide ParentOf, Chain, Distinct, Climbs;
    family := {self};
    var nextPid := self;
    ChainStep(procs, self, 0);
    assert Chain(procs, self, 0) == [self] by { ChainZero(procs, self); }
    for d := 0 to MAX_DEPTH
      invariant |Chain(procs, self, d)| == d + 1 && Chain(procs, self, d)[d] == nextPid
      invariant forall p :: p in family <==> p in Chain(procs, self, d)
    {
      ChainStep(procs, self, d);
      var c := Chain(procs, self, d);
      match ParentOf(procs, nextPid) {
        case None =>
          ChainStops(procs, self, d, MAX_DEPTH);
          return;
        case Some(parent) =>
          if parent in family {
            var k :| 0 <= k < |c| && c[k] == parent;
            ChainRepeats(procs, self, d, k, MAX_DEPTH);
            return;
          }
          family := family + {parent};
          nextPid := parent;
      }
    }
  }

  /** The chain is what can be reached by climbing from child to parent at most ten times. */
  lemma ChainIff(procs: seq<Process>, self: Pid, p: Pid)
    requires Distinct(procs)
    ensures p in ChainSet(procs, self) <==>
            exists path :: Climbs(procs, path) && path[0] == self && path[|path| - 1] == p && |path| <= 11
  {
    hide IsChild, Chain, ParentOf;
    ChainStep(procs, self, MAX_DEPTH);
    var c := Chain(procs, self, MAX_DEPTH);
    if p in c {
      var i :| 0 <= i < |c| && c[i] == p;
      assert Climbs(procs, c[..i + 1]) && c[..i + 1][0] == self;
    }
    if path :| Climbs(procs, path) && path[0] == self && path[|path| - 1] == p && |path| <= 11 {
      ClimbIsChain(procs, self, MAX_DEPTH, path);
    }
  }

  /** There is one way up. */
  lemma {:induction false} ClimbIsChain(procs: seq<Process>, pid: Pid, depth: nat, path: seq<Pid>)
    requires Distinct(procs) && Climbs(procs, path) && path[0] == pid && |path| <= depth + 1
    ensures path[|path| - 1] in Chain(procs, pid, depth)
    decreases depth
  {
    hide IsChild, ParentOf, Distinct;
    if |path| == 1 {
      ChainHead(procs, pid, depth);
    } else {
      assert IsChild(procs, path[0], path[0 + 1]);
      ParentIffChild(procs, pid, path[1]);
      ClimbIsChain(procs, path[1], depth - 1, path[1..]);
    }
  }

  lemma ChainZero(procs: seq<Process>, pid: Pid)
    ensures Chain(procs, pid, 0) == [pid]
  {}

  lemma {:induction false} ChainStops(procs: seq<Process>, pid: Pid, d: nat, m: nat)
    requires Distinct(procs) && d <= m
    requires |Chain(procs, pid, d)| == d + 1 && ParentOf(procs, Chain(procs, pid, d)[d]) == None
    ensures Chain(procs, pid, m) == Chain(procs, pid, d)
    decreases m - d
  {
    hide ParentOf, Chain;
    if d < m {
      ChainStops(procs, pid, d, m - 1);
      ChainStep(procs, pid, d);
      ChainStep(procs, pid, m - 1);
    }
  }

  // ---- descendants ----

  /** A downward path from `self` whose later elements stay outside `known`. */
  ghost predicate Avoids(procs: seq<Process>, path: seq<Pid>, known: set<Pid>, self: Pid, p: Pid) {
    DownPath(procs, path, self, p) && forall i :: 1 <= i < |path| ==> path[i] !in known
  }

  ghost predicate Reached(procs: seq<Process>, known: set<Pid>, self: Pid, p: Pid) {
    exists path :: Avoids(procs, path, known, self, p)
  }

  ghost predicate Maps(adj: map<Pid, seq<Pid>>, procs: seq<Process>) {
    forall parent: Pid, child: Pid :: InList(adj, parent, child) <==> IsChild(procs, child, parent)
  }

  /** The children list of `p`'s parent, with `p` appended. */
  function WithChild(adj: map<Pid, seq<Pid>>, p: Process): map<Pid, seq<Pid>> {
    if p.parent.None? then adj
    else
      var parent := p.parent.value;
      adj[parent := (if parent in adj then adj[parent] else []) + [p.pid]]
  }

  predicate InList(adj: map<Pid, seq<Pid>>, parent: Pid, child: Pid) {
    parent in adj && child in adj[parent]
  }

  method ChildrenOf(procs: seq<Process>) returns (adj: map<Pid, seq<Pid>>)
    ensures Maps(adj, procs)
  {
    hide Maps, InList;
    adj := map[];
    NoChildren();
    for i := 0 to |procs|
      invariant Maps(adj, procs[..i])
    {
      MapsAppend(adj, procs, i);
      adj := WithChild(adj, procs[i]);
    }
    assert procs[..|procs|] == procs;
  }

  lemma WithChildList(adj: map<Pid, seq<Pid>>, p: Process, parent: Pid, child: Pid)
    ensures InList(WithChild(adj, p), parent, child) <==>
            InList(adj, parent, child) || (p.pid == child && p.parent == Some(parent))
  {}

  lemma MapsAppend(adj: map<Pid, seq<Pid>>, procs: seq<Process>, i: nat)
    requires i < |procs| && Maps(adj, procs[..i])
    ensures Maps(WithChild(adj, procs[i]), procs[..i + 1])
  {
    hide IsChild, InList, WithChild;
    forall parent: Pid, child: Pid
      ensures InList(WithChild(adj, procs[i]), parent, child) <==> IsChild(procs[..i + 1], child, parent)
    {
      ChildAppend(procs, i, child, parent);
      WithChildList(adj, procs[i], parent, child);
    }
  }

  lemma NoChildren()
    ensures forall procs: seq<Process> :: procs == [] ==> Maps(map[], procs)
  {}

  lemma ChildAppend(procs: seq<Process>, i: nat, child: Pid, parent: Pid)
    requires i < |procs|
    ensures IsChild(procs[..i + 1], child, parent) <==>
            IsChild(procs[..i], child, parent) || (procs[i].pid == child && procs[i].parent == Some(parent))
  {
    var all := procs[..i + 1];
    if procs[i].pid == child && procs[i].parent == Some(parent) {
      assert all[i].pid == child;
    }
    if IsChild(procs[..i], child, parent) {
      var k :| 0 <= k < i && procs[..i][k].pid == child && procs[..i][k].parent == Some(parent);
      assert all[k].pid == child;
    }
    if IsChild(all, child, parent) && !(procs[i].pid == child && procs[i].parent == Some(parent)) {
      var k :| 0 <= k < |all| && all[k].pid == child && all[k].parent == Some(parent);
      assert procs[..i][k].pid == child;
    }
  }

  /** Everything added was reached, and whatever was reached and is not waiting has its children in. */
  ghost predicate Explored(procs: seq<Process>, known: set<Pid>, self: Pid, family: set<Pid>, waiting: seq<Pid>) {
    && known <= family && self in known
    && (forall p :: p in family && p !in known ==> Reached(procs, known, self, p))
    && (forall p :: p in waiting ==> p == self || (p in family && p !in known))
    && (forall p, child :: (p == self || (p in family && p !in known)) && p !in waiting && IsChild(procs, child, p) ==>
       child in family)
  }

  lemma ReachChild(procs: seq<Process>, known: set<Pid>, self: Pid, p: Pid, child: Pid)
    requires p == self || Reached(procs, known, self, p)
    requires IsChild(procs, child, p) && child !in known
    ensures Reached(procs, known, self, child)
  {
    hide IsChild;
    if p == self {
      assert Avoids(procs, [self, child], known, self, child);
    } else {
      var path: seq<Pid> :| Avoids(procs, path, known, self, p);
      ExtendPath(procs, path, self, p, child);
      assert Avoids(procs, path + [child], known, self, child);
    }
  }

  /** Breadth first, over the children lists. */
  method Descendants(procs: seq<Process>, self: Pid, known: set<Pid>) returns (family: set<Pid>)
    requires self in known
    ensures forall p :: p in family <==> p in known || Reached(procs, known, self, p)
  {
    hide IsChild, Reached;
    var adj := ChildrenOf(procs);
    ghost var pids := set i | 0 <= i < |procs| :: procs[i].pid;
    family := known;
    var queue := [self];
    while queue != []
      invariant Explored(procs, known, self, family, queue)
      decreases |pids - family|, |queue|
    {
      var pid := queue[0];
      assert queue == [pid] + queue[1..];
      queue := queue[1..];
      if pid in adj {
        family, queue := Enqueue(procs, known, self, family, queue, pid, adj[pid], pids);
      } else {
        ExploredDone(procs, known, self, family, queue, pid);
      }
    }
    forall p | Reached(procs, known, self, p)
      ensures p in family
    {
      ReachedIsIn(procs, known, self, family, p);
    }
  }

  lemma ExploreChild(procs: seq<Process>, known: set<Pid>, self: Pid, family: set<Pid>, queue: seq<Pid>, pid: Pid,
                     child: Pid)
    requires Explored(procs, known, self, family, [pid] + queue)
    requires IsChild(procs, child, pid) && child !in family
    ensures Explored(procs, known, self, family + {child}, [pid] + (queue + [child]))
  {
    hide IsChild, Reached;
    assert ([pid] + queue)[0] == pid;
    ReachChild(procs, known, self, pid, child);
    forall p
      ensures p in [pid] + (queue + [child]) <==> p in [pid] + queue || p == child
    {
      assert [pid] + (queue + [child]) == [pid] + queue + [child];
    }
  }

  lemma ExploredDone(procs: seq<Process>, known: set<Pid>, self: Pid, family: set<Pid>, queue: seq<Pid>, pid: Pid)
    requires Explored(procs, known, self, family, [pid] + queue)
    requires forall child :: IsChild(procs, child, pid) ==> child in family
    ensures Explored(procs, known, self, family, queue)
  {
    hide IsChild, Reached;
    assert forall p :: p in [pid] + queue <==> p == pid || p in queue;
  }

  /** The inner loop: children not seen before join the family and the queue. */
  method Enqueue(procs: seq<Process>, ghost known: set<Pid>, ghost self: Pid, family0: set<Pid>, queue0: seq<Pid>,
                 pid: Pid, children: seq<Pid>, ghost pids: set<Pid>)
    returns (family: set<Pid>, queue: seq<Pid>)
    requires pids == set i | 0 <= i < |procs| :: procs[i].pid
    requires Explored(procs, known, self, family0, [pid] + queue0)
    requires forall child :: child in children <==> IsChild(procs, child, pid)
    ensures Explored(procs, known, self, family, queue)
    ensures |pids - family| < |pids - family0| || (family == family0 && queue == queue0)
  {
    hide IsChild, Reached, Explored;
    family, queue := family0, queue0;
    for i := 0 to |children|
      invariant Explored(procs, known, self, family, [pid] + queue)
      invariant forall k :: 0 <= k < i ==> children[k] in family
      invariant family0 <= family
      invariant |pids - family| < |pids - family0| || (family == family0 && queue == queue0)
    {
      var child := children[i];
      assert child in children;
      if child !in family {
        ExploreChild(procs, known, self, family, queue, pid, child);
        ChildIsListed(procs, child, pid, pids);
        AddShrinks(pids, family, child);
        ShrinksWith(pids, family0, family);
        family := family + {child};
        queue := queue + [child];
      }
    }
    ExploredDone(procs, known, self, family, queue, pid);
  }

  lemma ChildIsListed(procs: seq<Process>, child: Pid, parent: Pid, pids: set<Pid>)
    requires pids == (set i | 0 <= i < |procs| :: procs[i].pid) && IsChild(procs, child, parent)
    ensures child in pids
  {}

  lemma AddShrinks(pids: set<Pid>, family: set<Pid>, child: Pid)
    requires child in pids && child !in family
    ensures |pids - (family + {child})| < |pids - family|
  {
    assert pids - family == (pids - (family + {child})) + {child};
  }

  lemma ShrinksWith(pids: set<Pid>, small: set<Pid>, large: set<Pid>)
    requires small <= large
    ensures |pids - large| <= |pids - small|
  {
    assert pids - small == (pids - large) + ((pids - small) - (pids - large));
  }

  lemma {:induction false} ReachedIsIn(procs: seq<Process>, known: set<Pid>, self: Pid, family: set<Pid>, p: Pid)
    requires Explored(procs, known, self, family, []) && Reached(procs, known, self, p)
    ensures p in family
  {
    hide IsChild;
    var path: seq<Pid> :| Avoids(procs, path, known, self, p);
    for i := 0 to |path|
      invariant forall k :: 0 <= k < i ==> path[k] in family
    {
      if i > 0 {
        assert IsChild(procs, path[i - 1 + 1], path[i - 1]);
      }
    }
  }

  // ---- the family ----

  /** In an acyclic table no descendant of self is one of its ancestors. */
  lemma DescendantsAvoidChain(procs: seq<Process>, self: Pid, depth: nat, path: seq<Pid>, p: Pid)
    requires Distinct(procs) && Acyclic(procs) && DownPath(procs, path, self, p)
    ensures forall i :: 1 <= i < |path| ==> path[i] !in Chain(procs, self, depth)
  {
    var chain := Chain(procs, self, depth);
    ChainStep(procs, self, depth);
    hide IsChild, Chain;
    forall i, k | 1 <= i < |path| && 0 <= k < |chain|
      ensures path[i] != chain[k]
    {
      ClimbReversed(procs, chain[..k + 1]);
      var up := Reversed(chain[..k + 1]);
      JoinPaths(procs, up, path[..i + 1], chain[k], self, path[i]);
      assert |up + path[..i + 1][1..]| > 1;
    }
  }

  function ChainSet(procs: seq<Process>, self: Pid): set<Pid> {
    set p | p in Chain(procs, self, MAX_DEPTH)
  }

  /** Self, its parent chain up to ten levels, and what self reaches downwards without passing
      through that chain. */
  ghost predicate InFamily(procs: seq<Process>, self: Pid, p: Pid) {
    p in ChainSet(procs, self) || Reached(procs, ChainSet(procs, self), self, p)
  }

  /** In an acyclic table that is exactly self, the chain and all descendants of self. */
  lemma FamilyOfAcyclic(procs: seq<Process>, self: Pid, p: Pid)
    requires Distinct(procs) && Acyclic(procs)
    ensures InFamily(procs, self, p) <==> p in Chain(procs, self, MAX_DEPTH) || Descends(procs, self, p)
  {
    hide IsChild, Chain, Acyclic, Distinct, DownPath;
    if Descends(procs, self, p) {
      var path: seq<Pid> :| DownPath(procs, path, self, p);
      DescendantsAvoidChain(procs, self, MAX_DEPTH, path, p);
      assert Avoids(procs, path, ChainSet(procs, self), self, p);
    }
  }

  /** The children of an ancestor that self also reaches downwards are on the chain themselves. */
  ghost predicate HidesNothing(procs: seq<Process>, self: Pid) {
    var chain := ChainSet(procs, self);
    forall above, child :: above in chain && above != self && Descends(procs, self, above) ==>
      (IsChild(procs, child, above) ==> child in chain)
  }

  /** Step by step down the path: on the chain, or reached without it. */
  lemma {:induction false} PathInFamily(procs: seq<Process>, self: Pid, path: seq<Pid>, p: Pid)
    requires HidesNothing(procs, self) && DownPath(procs, path, self, p)
    ensures InFamily(procs, self, p)
    decreases |path|
  {
    hide IsChild, ChainSet, Reached;
    var family := ChainSet(procs, self);
    if |path| == 1 {
      SelfInFamily(procs, self);
      return;
    }
    var init, above := path[..|path| - 1], path[|path| - 2];
    assert IsChild(procs, path[|path| - 2 + 1], path[|path| - 2]);
    assert DownPath(procs, init, self, above);
    PathInFamily(procs, self, init, above);
    if p !in family {
      ReachChild(procs, family, self, above, p);
    }
  }

  /** No descendant is missed exactly when nothing hangs below a cycle outside the chain. */
  lemma FamilyCompleteIff(procs: seq<Process>, self: Pid)
    requires Distinct(procs)
    ensures (forall p :: Descends(procs, self, p) ==> InFamily(procs, self, p)) <==> HidesNothing(procs, self)
  {
    hide IsChild, ChainSet, Distinct, InFamily;
    if HidesNothing(procs, self) {
      forall p | Descends(procs, self, p)
        ensures InFamily(procs, self, p)
      {
        var path: seq<Pid> :| DownPath(procs, path, self, p);
        PathInFamily(procs, self, path, p);
      }
    }
    if forall p :: Descends(procs, self, p) ==> InFamily(procs, self, p) {
      forall above, child | above in ChainSet(procs, self) && above != self && Descends(procs, self, above) &&
          IsChild(procs, child, above)
        ensures child in ChainSet(procs, self)
      {
        var path: seq<Pid> :| DownPath(procs, path, self, above);
        ExtendPath(procs, path, self, above, child);
        NotReachedBelow(procs, self, above, child);
      }
    }
  }

  /** A process has one parent, so below an ancestor nothing is reached. */
  lemma NotReachedBelow(procs: seq<Process>, self: Pid, above: Pid, child: Pid)
    requires Distinct(procs) && above in ChainSet(procs, self) && above != self && IsChild(procs, child, above)
    requires InFamily(procs, self, child)
    ensures child in ChainSet(procs, self)
  {
    hide IsChild, ChainSet, Distinct;
    var family := ChainSet(procs, self);
    if child !in family {
      var path: seq<Pid> :| Avoids(procs, path, family, self, child);
      var n := |path|;
      ChainHead(procs, self, MAX_DEPTH);
      assert self in family by { ChainMember(procs, self, self); }
      assert n > 1;
      assert IsChild(procs, path[n - 2 + 1], path[n - 2]);
      OneParent(procs, child, above, path[n - 2]);
      assert false;
    }
  }

  lemma ChainMember(procs: seq<Process>, self: Pid, p: Pid)
    ensures p in ChainSet(procs, self) <==> p in Chain(procs, self, MAX_DEPTH)
  {}

  lemma OneParent(procs: seq<Process>, child: Pid, a: Pid, b: Pid)
    requires Distinct(procs) && IsChild(procs, child, a) && IsChild(procs, child, b)
    ensures a == b
  {}

  /** In a cycle a descendant can be missed: 1 and 2 are each other's parent, and 3, the child of
      2, is a descendant of 1 but not in the family of 1. */
  lemma CycleHidesDescendant(ring: seq<Process>)
    requires |ring| == 3 && ring[0].pid == 1 && ring[1].pid == 2 && ring[2].pid == 3
    requires ring[0].parent == Some(2) && ring[1].parent == Some(1) && ring[2].parent == Some(2)
    ensures Descends(ring, 1, 3) && !InFamily(ring, 1, 3)
  {
    assert IsChild(ring, 2, 1) && IsChild(ring, 3, 2);
    assert DownPath(ring, [1, 2, 3], 1, 3);
    RingChain(ring, 1, MAX_DEPTH);
    hide Chain;
    var c := Chain(ring, 1, MAX_DEPTH);
    assert c[1] == 2 && c[1] in c;
    forall path
      ensures !Avoids(ring, path, ChainSet(ring, 1), 1, 3)
    {
      if DownPath(ring, path, 1, 3) {
        RingPath(ring, path);
      }
    }
  }

  /** The last step of any way down to 3 leaves from 2. */
  lemma RingPath(ring: seq<Process>, path: seq<Pid>)
    requires |ring| == 3 && ring[0].pid == 1 && ring[1].pid == 2 && ring[2].pid == 3
    requires ring[0].parent == Some(2) && ring[1].parent == Some(1) && ring[2].parent == Some(2)
    requires DownPath(ring, path, 1, 3)
    ensures |path| >= 3 && path[|path| - 2] == 2
  {
    assert IsChild(ring, 3, path[|path| - 2]);
  }

  lemma {:induction false} RingChain(ring: seq<Process>, pid: Pid, depth: nat)
    requires |ring| == 3 && ring[0].pid == 1 && ring[1].pid == 2 && ring[2].pid == 3
    requires ring[0].parent == Some(2) && ring[1].parent == Some(1) && ring[2].parent == Some(2)
    requires pid == 1 || pid == 2
    ensures forall p :: p in Chain(ring, pid, depth) ==> p == 1 || p == 2
    ensures var c := Chain(ring, pid, depth);
            depth > 0 ==> |c| > 1 && c[0] == pid && c[1] == 3 - pid
    decreases depth
  {
    assert ring[0].parent == Some(2) && ring[1].parent == Some(1);
    assert IsChild(ring, pid, 3 - pid);
    ParentIffChild(ring, pid, 3 - pid);
    hide ParentOf, IsChild;
    if depth > 0 {
      RingChain(ring, 3 - pid, depth - 1);
    }
  }

  /** The family of self, in a table with or without cycles. */
  method GetSelfFamily(procs: seq<Process>, self: Pid) returns (family: set<Pid>)
    requires Distinct(procs)
    ensures forall p :: p in family <==> InFamily(procs, self, p)
    ensures Acyclic(procs) ==> forall p :: p in family <==>
            p in Chain(procs, self, MAX_DEPTH) || Descends(procs, self, p)
  {
    hide IsChild, Chain, Acyclic, Distinct, Descends, Reached;
    var above := Ancestors(procs, self);
    assert above == ChainSet(procs, self);
    assert self in above by { ChainHead(procs, self, MAX_DEPTH); }
    family := Descendants(procs, self, above);
    if Acyclic(procs) {
      forall p
        ensures InFamily(procs, self, p) <==> p in Chain(procs, self, MAX_DEPTH) || Descends(procs, self, p)
      {
        FamilyOfAcyclic(procs, self, p);
      }
    }
  }

  lemma SelfInFamily(procs: seq<Process>, self: Pid)
    ensures InFamily(procs, self, self)
  {
    ChainHead(procs, self, MAX_DEPTH);
  }

  lemma ChainHead(procs: seq<Process>, self: Pid, depth: nat)
    ensures self in Chain(procs, self, depth)
  {
    hide ParentOf;
    assert Chain(procs, self, depth)[0] == self;
  }

  // ---- its use as a filter ----

  /** The processes to close: recognised, not our own executable, not tools, not family. */
  method GetTargetPids(procs: seq<Process>, self: Pid) returns (pids: seq<Pid>)
    requires Distinct(procs)
    ensures forall pid :: pid in pids <==>
              exists i :: && 0 <= i < |procs| && procs[i].pid == pid
                          && (procs[i].manualMatch || (procs[i].looksLikeTarget && !procs[i].helper))
                          && !procs[i].sameExeAsSelf && !procs[i].nameHasTools && !InFamily(procs, self, pid)
    ensures Acyclic(procs) ==> forall pid :: pid in pids ==>
            pid !in Chain(procs, self, MAX_DEPTH) && !Descends(procs, self, pid)
  {
    hide IsChild, Chain, Acyclic, Descends, Reached, InFamily;
    var family := GetSelfFamily(procs, self);
    SelfInFamily(procs, self);
    pids := [];
    for i := 0 to |procs|
      invariant forall pid :: pid in pids <==>
                  exists k :: && 0 <= k < i && procs[k].pid == pid
                              && (procs[k].manualMatch || (procs[k].looksLikeTarget && !procs[k].helper))
                              && !procs[k].sameExeAsSelf && !procs[k].nameHasTools && pid !in family
    {
      var p := procs[i];
      if p.pid == self || p.sameExeAsSelf || p.pid in family || p.nameHasTools {
        continue;
      }
      if p.manualMatch {
        pids := pids + [p.pid];
        continue;
      }
      if p.looksLikeTarget && !p.nameHasTools && !p.helper {
        pids := pids + [p.pid];
      }
    }
  }
}
