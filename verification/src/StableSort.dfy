/** Stable sorting, as Go's sort.SliceStable and Rust's sort_by promise it. */
module StableSort {
  ghost predicate StrictWeakOrder<T(!new)>(less: (T, T) -> bool) {
    && (forall x :: !less(x, x))
    && (forall x, y, z :: less(x, y) && less(y, z) ==> less(x, z))
    && (forall x, y, z :: !less(x, y) && !less(y, z) ==> !less(x, z))
  }

  /** Position `a` of `s` must come before position `b` in a stable sort. */
  ghost predicate Precedes<T>(s: seq<T>, less: (T, T) -> bool, a: nat, b: nat)
    requires a < |s| && b < |s|
  {
    less(s[a], s[b]) || (!less(s[b], s[a]) && a < b)
  }

  /** `r` is `s` rearranged by `p`, in order, ties kept in their original order. */
  ghost predicate IsStableSort<T>(s: seq<T>, less: (T, T) -> bool, r: seq<T>, p: seq<nat>) {
    && |r| == |p| == |s|
    && (forall i :: 0 <= i < |p| ==> p[i] < |s| && r[i] == s[p[i]])
    && (forall k: nat :: k < |s| ==> k in p)
    && (forall i, j :: 0 <= i < j < |p| ==> Precedes(s, less, p[i], p[j]))
  }

  /** `r` is `s` sorted stably. */
  ghost predicate SortsStably<T>(s: seq<T>, less: (T, T) -> bool, r: seq<T>) {
    exists p: seq<nat> :: IsStableSort(s, less, r, p)
  }

  /** The first `n` elements of `s` sorted stably into `r`. */
  ghost predicate PrefixSorted<T>(s: seq<T>, less: (T, T) -> bool, n: nat, r: seq<T>, p: seq<nat>) {
    && n <= |s|
    && |r| == |p| == n
    && (forall i :: 0 <= i < n ==> p[i] < n && r[i] == s[p[i]])
    && (forall k: nat :: k < n ==> k in p)
    && (forall i, j :: 0 <= i < j < n ==> Precedes(s, less, p[i], p[j]))
  }

  lemma InsertKeepsOrder<T(!new)>(s: seq<T>, less: (T, T) -> bool, n: nat, r: seq<T>, p: seq<nat>, pos: nat)
    requires StrictWeakOrder(less)
    requires PrefixSorted(s, less, n, r, p) && n < |s|
    requires pos <= n && (0 < pos ==> !less(s[n], r[pos - 1]))
    requires forall i :: pos <= i < n ==> less(s[n], r[i])
    ensures forall i :: 0 <= i < pos ==> Precedes(s, less, p[i], n)
    ensures forall i :: pos <= i < n ==> Precedes(s, less, n, p[i])
  {
    forall i | 0 <= i < pos
      ensures Precedes(s, less, p[i], n)
    {
      assert i < pos - 1 ==> Precedes(s, less, p[i], p[pos - 1]);
    }
  }

  lemma InsertKeepsAll(n: nat, p: seq<nat>, pos: nat)
    requires forall k: nat :: k < n ==> k in p
    requires pos <= |p|
    ensures forall k: nat :: k < n + 1 ==> k in p[..pos] + [n] + p[pos..]
  {
    forall k: nat | k < n + 1
      ensures k in p[..pos] + [n] + p[pos..]
    {
      assert k < n ==> k in p;
      assert p == p[..pos] + p[pos..];
      assert k == n || k in p[..pos] || k in p[pos..];
    }
  }

  lemma InsertAt<T(!new)>(s: seq<T>, less: (T, T) -> bool, n: nat, r: seq<T>, p: seq<nat>, pos: nat)
    requires StrictWeakOrder(less)
    requires PrefixSorted(s, less, n, r, p) && n < |s|
    requires pos <= n && (0 < pos ==> !less(s[n], r[pos - 1]))
    requires forall i :: pos <= i < n ==> less(s[n], r[i])
    ensures PrefixSorted(s, less, n + 1, r[..pos] + [s[n]] + r[pos..], p[..pos] + [n] + p[pos..])
  {
    InsertKeepsOrder(s, less, n, r, p, pos);
    InsertKeepsAll(n, p, pos);
    hide StrictWeakOrder, Precedes;
  }

  /** Insertion sort; `p` records where each element came from. */
  method SliceStable<T(!new)>(s: seq<T>, less: (T, T) -> bool) returns (r: seq<T>, ghost p: seq<nat>)
    requires StrictWeakOrder(less)
    ensures IsStableSort(s, less, r, p)
    ensures SortsStably(s, less, r)
  {
    r, p := [], [];
    for n := 0 to |s|
      invariant PrefixSorted(s, less, n, r, p)
    {
      var pos := n;
      while 0 < pos && less(s[n], r[pos - 1])
        invariant 0 <= pos <= n
        invariant forall i :: pos <= i < n ==> less(s[n], r[i])
      {
        pos := pos - 1;
      }
      InsertAt(s, less, n, r, p, pos);
      r := r[..pos] + [s[n]] + r[pos..];
      p := p[..pos] + [n] + p[pos..];
    }
  }

  ghost predicate StrictlyListed<T>(a: seq<T>, before: (T, T) -> bool) {
    forall i, j :: 0 <= i < j < |a| ==> before(a[i], a[j])
  }

  lemma HeadIsMember<T>(a: seq<T>)
    ensures a == [] || a[0] in a
  {}

  lemma HeadComesFirst<T>(a: seq<T>, before: (T, T) -> bool, x: T)
    requires StrictlyListed(a, before) && x in a
    ensures x == a[0] || before(a[0], x)
  {}

  /** A strictly ordered listing of a given set of elements is unique. */
  lemma {:induction false} SortedListingUnique<T(!new)>(a: seq<T>, b: seq<T>, before: (T, T) -> bool)
    requires forall x, y :: x in a && y in a ==> !(before(x, y) && before(y, x))
    requires StrictlyListed(a, before) && StrictlyListed(b, before)
    requires forall x :: x in a <==> x in b
    ensures a == b
  {
    if a == [] {
      HeadIsMember(b);
    } else {
      assert a[0] in a;
      HeadComesFirst(b, before, a[0]);
      assert b[0] in b;
      HeadComesFirst(a, before, b[0]);
      forall x ensures x in a[1..] <==> x in b[1..] {
        assert x in a <==> x == a[0] || x in a[1..];
        assert x in b <==> x == b[0] || x in b[1..];
        assert x in a[1..] ==> before(a[0], x);
        assert x in b[1..] ==> before(b[0], x);
      }
      SortedListingUnique(a[1..], b[1..], before);
      assert a == [a[0]] + a[1..] && b == [b[0]] + b[1..];
    }
  }

  /** So the specification leaves no freedom: it determines the sorted result. */
  lemma StableSortUnique<T(!new)>(s: seq<T>, less: (T, T) -> bool, r: seq<T>, p: seq<nat>, r': seq<T>, p': seq<nat>)
    requires StrictWeakOrder(less)
    requires IsStableSort(s, less, r, p) && IsStableSort(s, less, r', p')
    ensures p == p' && r == r'
  {
    var before := (x: nat, y: nat) => x < |s| && y < |s| && Precedes(s, less, x, y);
    forall x | x in p ensures x < |s| { }
    forall x | x in p' ensures x < |s| { }
    SortedListingUnique(p, p', before);
  }

  /** Sorting permutes: the elements and their multiplicities are unchanged. */
  lemma StableSortPermutes<T>(s: seq<T>, less: (T, T) -> bool, r: seq<T>, p: seq<nat>)
    requires IsStableSort(s, less, r, p)
    requires forall i :: 0 <= i < |s| ==> !less(s[i], s[i])
    ensures multiset(r) == multiset(s)
  {
    PermutedMultiset(s, p);
    assert r == seq(|p|, i requires 0 <= i < |p| => s[p[i]]);
  }

  lemma {:induction false} PermutedMultiset<T>(s: seq<T>, p: seq<nat>)
    requires |p| == |s|
    requires forall i :: 0 <= i < |p| ==> p[i] < |s|
    requires forall k: nat :: k < |s| ==> k in p
    ensures multiset(seq(|p|, i requires 0 <= i < |p| => s[p[i]])) == multiset(s)
  {
    var r := seq(|p|, i requires 0 <= i < |p| => s[p[i]]);
    if s == [] {
      assert r == [];
    } else {
      // Remove the last element of s and the place where p names it.
      var n := |s| - 1;
      assert n in p;
      var m: nat :| m < |p| && p[m] == n;
      var s', p' := s[..n], Without(p, m);
      RemoveNamed(p, n, m);
      PigeonHole(p', n);
      PermutedMultiset(s', p');
      var r' := seq(|p'|, i requires 0 <= i < |p'| => s'[p'[i]]);
      assert r' == Without(r, m);
      RemovedMultiset(r, m);
      RemovedMultiset(s, n);
      assert Without(s, n) == s';
    }
  }

  function Without<T>(s: seq<T>, m: nat): (r: seq<T>)
    requires m < |s|
    ensures |r| == |s| - 1
    ensures forall i :: 0 <= i < |r| ==> r[i] == s[if i < m then i else i + 1]
  {
    s[..m] + s[m + 1..]
  }

  lemma RemovedMultiset<T>(s: seq<T>, m: nat)
    requires m < |s|
    ensures multiset(s) == multiset(Without(s, m)) + multiset{s[m]}
  {
    assert s == s[..m] + [s[m]] + s[m + 1..];
  }

  /** Removing the place of n keeps every smaller number. */
  lemma RemoveNamed(p: seq<nat>, n: nat, m: nat)
    requires m < |p| && p[m] == n && forall k: nat :: k < n + 1 ==> k in p
    ensures forall k: nat :: k < n ==> k in Without(p, m)
  {
    forall k: nat | k < n
      ensures k in Without(p, m)
    {
      assert k in p;
      var i :| 0 <= i < |p| && p[i] == k;
      assert Without(p, m)[if i < m then i else i - 1] == k;
    }
  }

  /** A list of length n that contains every number below n contains nothing else. */
  lemma {:induction false} PigeonHole(p: seq<nat>, n: nat)
    requires |p| == n
    requires forall k: nat :: k < n ==> k in p
    ensures forall i :: 0 <= i < n ==> p[i] < n
  {
    if n > 0 {
      assert n - 1 in p;
      var m: nat :| m < n && p[m] == n - 1;
      var p' := Without(p, m);
      RemoveNamed(p, n - 1, m);
      PigeonHole(p', n - 1);
      forall i | 0 <= i < n ensures p[i] < n {
        if i != m {
          assert p[i] == p'[if i < m then i else i - 1];
        }
      }
    }
  }
}
