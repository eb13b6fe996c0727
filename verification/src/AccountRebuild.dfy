/** Rebuilding the index by scanning the account files. */
module AccountRebuild {
  import opened Text
  import opened StableSort
  import opened AccountIndex
  import opened AccountSafety

  predicate IsReadable(files: map<string, File>, name: string) {
    name in files && files[name].Readable?
  }

  /** Most recently used first, then by email. */
  predicate MoreRecent(x: Summary, y: Summary) {
    x.lastUsed > y.lastUsed || (x.lastUsed == y.lastUsed && StringLess(x.email, y.email))
  }

  /** The one last used later comes first; of two last used together, not the greater email. */
  predicate InOrder(x: Summary, y: Summary) {
    if x.lastUsed != y.lastUsed then x.lastUsed > y.lastUsed else !StringLess(y.email, x.email)
  }

  lemma InOrderIff(x: Summary, y: Summary)
    ensures InOrder(x, y) <==> !MoreRecent(y, x)
    ensures forall a: Account :: Summarizes(x, a) <==> x == SummaryOf(a)
  {}

  /** `index` has exactly one entry per readable file, in order; `names` tells which. */
  ghost predicate Rebuilds(files: map<string, File>, index: Index, names: seq<string>) {
    && |names| == |index.accounts|
    && (forall i, j :: 0 <= i < j < |names| ==> names[i] != names[j])
    && (forall name :: name in names <==> IsReadable(files, name))
    && (forall i :: 0 <= i < |names| ==>
       IsReadable(files, names[i]) && Summarizes(index.accounts[i], files[names[i]].account))
    && (forall i, j :: 0 <= i < j < |names| ==> InOrder(index.accounts[i], index.accounts[j]))
    && index.current == FirstID(index.accounts)
  }

  /** An index that a rebuild of these files may give. */
  ghost predicate IsRebuild(files: map<string, File>, index: Index) {
    exists names: seq<string> :: Rebuilds(files, index, names)
  }

  lemma RecencyIsWeakOrder()
    ensures StrictWeakOrder(MoreRecent)
  {
    forall x: Summary ensures !MoreRecent(x, x) {
      StringLessTrichotomy(x.email, x.email);
    }
    forall x: Summary, y: Summary, z: Summary
      ensures MoreRecent(x, y) && MoreRecent(y, z) ==> MoreRecent(x, z)
      ensures !MoreRecent(x, y) && !MoreRecent(y, z) ==> !MoreRecent(x, z)
    {
      if MoreRecent(x, y) && MoreRecent(y, z) && x.lastUsed == z.lastUsed {
        StringLessTransitive(x.email, y.email, z.email);
      }
      if !MoreRecent(x, y) && !MoreRecent(y, z) && MoreRecent(x, z) {
        NotLessTransitive(x.email, y.email, z.email);
      }
    }
  }

  lemma NotLessTransitive(x: string, y: string, z: string)
    requires !StringLess(x, y) && !StringLess(y, z)
    ensures !StringLess(x, z)
  {
    StringLessTrichotomy(x, y);
    StringLessTrichotomy(y, z);
    StringLessTrichotomy(x, z);
    if StringLess(y, x) && StringLess(z, y) {
      StringLessTransitive(z, y, x);
    }
  }

  /** `listing` is the directory in whatever order it was read. */
  method RebuildIndex(listing: seq<string>, files: map<string, File>) returns (index: Index, ghost names: seq<string>)
    requires forall i, j :: 0 <= i < j < |listing| ==> listing[i] != listing[j]
    requires forall name :: name in listing <==> name in files
    ensures Rebuilds(files, index, names)
    ensures IsRebuild(files, index)
  {
    hide MoreRecent;
    var found: seq<Summary> := [];
    ghost var from: seq<string> := [];
    for i := 0 to |listing|
      invariant |found| == |from|
      invariant forall a, b :: 0 <= a < b < |from| ==> from[a] != from[b]
      invariant forall name :: name in from <==> name in listing[..i] && IsReadable(files, name)
      invariant forall k :: 0 <= k < |from| ==>
                IsReadable(files, from[k]) && found[k] == SummaryOf(files[from[k]].account)
    {
      assert listing[..i + 1] == listing[..i] + [listing[i]];
      assert listing[i] in listing && listing[i] !in listing[..i];
      if files[listing[i]].Readable? {
        found := found + [SummaryOf(files[listing[i]].account)];
        from := from + [listing[i]];
      }
    }
    assert listing[..|listing|] == listing;
    forall k | 0 <= k < |from|
      ensures Summarizes(found[k], files[from[k]].account)
    {
      AllSummarized(files[from[k]].account);
    }
    RecencyIsWeakOrder();
    var sorted, perm := SliceStable(found, MoreRecent);
    index := Index(sorted, FirstID(sorted));
    names := seq(|perm|, i requires 0 <= i < |perm| => from[perm[i]]);
    SortedNames(files, found, from, sorted, perm);
  }

  lemma AllSummarized(a: Account)
    ensures Summarizes(SummaryOf(a), a)
  {}

  lemma SortedNames(files: map<string, File>, found: seq<Summary>, from: seq<string>, sorted: seq<Summary>,
                    perm: seq<nat>)
    requires |found| == |from| && StrictWeakOrder(MoreRecent) && IsStableSort(found, MoreRecent, sorted, perm)
    requires forall a, b :: 0 <= a < b < |from| ==> from[a] != from[b]
    requires forall name :: name in from <==> IsReadable(files, name)
    requires forall k :: 0 <= k < |from| ==> IsReadable(files, from[k]) && Summarizes(found[k], files[from[k]].account)
    ensures Rebuilds(files, Index(sorted, FirstID(sorted)), seq(|perm|, i requires 0 <= i < |perm| => from[perm[i]]))
  {
    hide MoreRecent, InOrder, Summarizes, StrictWeakOrder, Precedes;
    var names := seq(|perm|, i requires 0 <= i < |perm| => from[perm[i]]);
    forall i, j | 0 <= i < j < |names|
      ensures names[i] != names[j] && InOrder(sorted[i], sorted[j])
    {
      SortedInOrder(found, sorted, perm, i, j);
    }
    assert forall k: nat :: k < |from| ==> k in perm;
    hide IsStableSort;
    NamesKept(from, perm);
  }

  lemma NamesKept(from: seq<string>, perm: seq<nat>)
    requires forall i :: 0 <= i < |perm| ==> perm[i] < |from|
    requires forall k: nat :: k < |from| ==> k in perm
    ensures forall name :: name in seq(|perm|, i requires 0 <= i < |perm| => from[perm[i]]) <==> name in from
  {
    var names := seq(|perm|, i requires 0 <= i < |perm| => from[perm[i]]);
    forall name | name in from
      ensures name in names
    {
      var k :| 0 <= k < |from| && from[k] == name;
      assert k in perm;
      var i :| 0 <= i < |perm| && perm[i] == k;
      assert names[i] == name;
    }
  }

  lemma SortedInOrder(found: seq<Summary>, sorted: seq<Summary>, perm: seq<nat>, i: nat, j: nat)
    requires StrictWeakOrder(MoreRecent) && IsStableSort(found, MoreRecent, sorted, perm) && i < j < |perm|
    ensures |sorted| == |perm| && perm[i] < |found| && perm[j] < |found| && perm[i] != perm[j]
    ensures InOrder(sorted[i], sorted[j])
  {
    hide MoreRecent, InOrder;
    assert Precedes(found, MoreRecent, perm[i], perm[j]);
    InOrderIff(sorted[i], sorted[j]);
  }

  /** From any store state whose files carry their own names, rebuilding gives unique ids, a
      sound current id, a file for every entry, and an entry for every readable listed account. */
  lemma RebuiltIsSound(d: Disk, index: Index, names: seq<string>)
    requires FilesNamed(d.files) && Rebuilds(d.files, index, names)
    ensures UniqueIDs(index.accounts) && CurrentNamed(index) && Covered(d.(index := index))
    ensures forall s :: s in d.index.accounts && IsReadable(d.files, s.id) ==> s.id in IDs(index.accounts)
  {
    hide MoreRecent;
    assert forall i :: 0 <= i < |names| ==> index.accounts[i].id == names[i];
    FirstNamed(index.accounts);
    forall x | x in IDs(index.accounts)
      ensures x in d.files
    {
      var k := SomeMember(index.accounts, x);
    }
    forall s | s in d.index.accounts && IsReadable(d.files, s.id)
      ensures s.id in IDs(index.accounts)
    {
      assert s.id in names;
      var i :| 0 <= i < |names| && names[i] == s.id;
      MemberID(index.accounts, i);
    }
  }

  /** No two readable files carry the same email. */
  ghost predicate DistinctEmails(files: map<string, File>) {
    forall a, b :: IsReadable(files, a) && IsReadable(files, b) && a != b ==>
        files[a].account.email != files[b].account.email
  }

  /** Rebuilt emails are unique exactly when the readable files' emails are. */
  lemma RebuiltEmailsIff(files: map<string, File>, index: Index, names: seq<string>)
    requires Rebuilds(files, index, names)
    ensures UniqueEmails(index.accounts) <==> DistinctEmails(files)
  {
    hide MoreRecent, SummaryOf;
    assert forall a: Account :: SummaryOf(a).email == a.email by { SummaryEmail(); }
    if UniqueEmails(index.accounts) {
      forall a, b | IsReadable(files, a) && IsReadable(files, b) && a != b
        ensures files[a].account.email != files[b].account.email
      {
        assert a in names && b in names;
        var i :| 0 <= i < |names| && names[i] == a;
        var j :| 0 <= j < |names| && names[j] == b;
        assert index.accounts[i].email != index.accounts[j].email;
      }
    }
  }

  lemma SummaryEmail()
    ensures forall a: Account :: SummaryOf(a).email == a.email
  {}

  /** With distinct emails the result does not depend on the order the directory was read in. */
  lemma RebuildDeterministic(files: map<string, File>, i1: Index, n1: seq<string>, i2: Index, n2: seq<string>)
    requires DistinctEmails(files) && Rebuilds(files, i1, n1) && Rebuilds(files, i2, n2)
    ensures i1 == i2
  {
    var before := (x: string, y: string) =>
      IsReadable(files, x) && IsReadable(files, y) &&
          MoreRecent(SummaryOf(files[x].account), SummaryOf(files[y].account));
    forall x, y | IsReadable(files, x) && IsReadable(files, y) && before(x, y)
      ensures !before(y, x)
    {
      StringLessTrichotomy(files[x].account.email, files[y].account.email);
    }
    ListedByRecency(files, i1, n1, before);
    ListedByRecency(files, i2, n2, before);
    SortedListingUnique(n1, n2, before);
    assert i1.accounts == i2.accounts;
  }

  lemma ListedByRecency(files: map<string, File>, index: Index, names: seq<string>, before: (string, string) -> bool)
    requires DistinctEmails(files) && Rebuilds(files, index, names)
    requires forall x, y :: before(x, y) <==>
               IsReadable(files, x) && IsReadable(files, y) &&
                   MoreRecent(SummaryOf(files[x].account), SummaryOf(files[y].account))
    ensures StrictlyListed(names, before)
  {
    forall i, j | 0 <= i < j < |names|
      ensures before(names[i], names[j])
    {
      StringLessTrichotomy(files[names[i]].account.email, files[names[j]].account.email);
      assert !MoreRecent(index.accounts[j], index.accounts[i]);
    }
  }

  /** A crash between the two writes of an add, then the same add again: every index built
      from the files then lists the email twice. */
  lemma OrphanRepeatsEmail(d: Disk, a: Account, b: Account, index: Index, names: seq<string>)
    requires Core(d) && a.email == b.email && a.id != b.id && a.email !in Emails(d.index.accounts)
    requires Rebuilds(ApplyAll(ApplyWrite(d, AddPlan(d, a)[0]), AddPlan(ApplyWrite(d, AddPlan(d, a)[0]), b)).files,
             index, names)
    ensures !UniqueEmails(index.accounts)
  {
    hide Core, MoreRecent, Rebuilds, UniqueEmails;
    var d1 := ApplyWrite(d, SaveFile(a));
    TwoWrites(d1, SaveFile(b), SaveIndex(Added(d1.index, b)));
    var files := d1.files[b.id := Readable(b)];
    assert IsReadable(files, a.id) && IsReadable(files, b.id);
    RebuiltEmailsIff(files, index, names);
  }
}
