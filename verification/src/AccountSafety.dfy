/** What the account store keeps at every write, under crashes and interleavings. */
module AccountSafety {
  import opened Wrappers
  import opened Search
  import opened AccountIndex

  // ---- invariants of a disk state ----

  ghost predicate UniqueIDs(accounts: seq<Summary>) {
    forall i, j :: 0 <= i < j < |accounts| ==> accounts[i].id != accounts[j].id
  }

  ghost predicate UniqueEmails(accounts: seq<Summary>) {
    forall i, j :: 0 <= i < j < |accounts| ==> accounts[i].email != accounts[j].email
  }

  /** The current id is absent exactly when the index is empty, and otherwise names an entry. */
  predicate CurrentNamed(i: Index) {
    if i.accounts == [] then i.current.None? else i.current.Some? && i.current.value in IDs(i.accounts)
  }

  predicate FilesNamed(files: map<string, File>) {
    forall id :: id in files && files[id].Readable? ==> files[id].account.id == id
  }

  ghost predicate Core(d: Disk) {
    UniqueIDs(d.index.accounts) && UniqueEmails(d.index.accounts) && CurrentNamed(d.index) && FilesNamed(d.files)
  }

  /** Every index entry has its account file. */
  predicate Covered(d: Disk) {
    IDs(d.index.accounts) <= d.files.Keys
  }

  ghost predicate AlwaysCore(d: Disk, ws: seq<Write>)
    decreases |ws|
  {
    Core(d) && (ws == [] || AlwaysCore(ApplyWrite(d, ws[0]), ws[1..]))
  }

  /** The state and every state the writes lead through is covered. */
  ghost predicate AlwaysCovered(d: Disk, ws: seq<Write>)
    decreases |ws|
  {
    Covered(d) && (ws == [] || AlwaysCovered(ApplyWrite(d, ws[0]), ws[1..]))
  }

  // ---- lists of summaries ----

  lemma MemberID(accounts: seq<Summary>, k: nat)
    requires k < |accounts|
    ensures accounts[k].id in IDs(accounts) && accounts[k].email in Emails(accounts)
  {
    assert accounts[k] in accounts;
  }

  lemma SomeMember(accounts: seq<Summary>, id: string) returns (k: nat)
    requires id in IDs(accounts)
    ensures k < |accounts| && accounts[k].id == id
  {
    var s :| s in accounts && s.id == id;
    k :| 0 <= k < |accounts| && accounts[k] == s;
  }

  lemma {:induction false} WithoutUnique(accounts: seq<Summary>, id: string)
    requires UniqueIDs(accounts) && UniqueEmails(accounts)
    ensures UniqueIDs(Without(accounts, id)) && UniqueEmails(Without(accounts, id))
  {
    if accounts != [] {
      WithoutUnique(accounts[1..], id);
      WithoutMembers(accounts[1..], id);
      var rest := Without(accounts[1..], id);
      forall s | s in rest
        ensures s.id != accounts[0].id && s.email != accounts[0].email
      {
        var k :| 0 <= k < |accounts[1..]| && accounts[1..][k] == s;
      }
      ConsUnique(accounts[0], rest);
    }
  }

  lemma ConsUnique(s: Summary, rest: seq<Summary>)
    requires UniqueIDs(rest) && UniqueEmails(rest)
    requires forall t :: t in rest ==> t.id != s.id && t.email != s.email
    ensures UniqueIDs([s] + rest) && UniqueEmails([s] + rest)
  {}

  lemma {:induction false} WithoutAllFacts(accounts: seq<Summary>, ids: seq<string>)
    ensures forall s :: s in WithoutAll(accounts, ids) <==> s in accounts && s.id !in ids
    ensures UniqueIDs(accounts) && UniqueEmails(accounts) ==>
            UniqueIDs(WithoutAll(accounts, ids)) && UniqueEmails(WithoutAll(accounts, ids))
  {
    if ids != [] {
      var init, last := ids[..|ids| - 1], ids[|ids| - 1];
      WithoutAllFacts(accounts, init);
      WithoutMembers(WithoutAll(accounts, init), last);
      if UniqueIDs(accounts) && UniqueEmails(accounts) {
        WithoutUnique(WithoutAll(accounts, init), last);
      }
      assert forall x :: x in ids <==> x in init || x == last;
    }
  }

  lemma FirstNamed(accounts: seq<Summary>)
    ensures CurrentNamed(Index(accounts, FirstID(accounts)))
  {
    if accounts != [] {
      MemberID(accounts, 0);
    }
  }

  // ---- each operation, write by write ----

  lemma TwoSteps(d: Disk, w1: Write, w2: Write)
    ensures var d1 := ApplyWrite(d, w1);
            && (AlwaysCore(d, [w1, w2]) <==> Core(d) && Core(d1) && Core(ApplyWrite(d1, w2)))
            && (AlwaysCovered(d, [w1, w2]) <==> Covered(d) && Covered(d1) && Covered(ApplyWrite(d1, w2)))
  {
    hide Core, Covered, ApplyWrite;
    var d1 := ApplyWrite(d, w1);
    assert [w1, w2][1..] == [w2] && [w2][1..] == [];
    assert AlwaysCore(d1, [w2]) <==> Core(d1) && AlwaysCore(ApplyWrite(d1, w2), []);
    assert AlwaysCovered(d1, [w2]) <==> Covered(d1) && AlwaysCovered(ApplyWrite(d1, w2), []);
  }

  lemma OneStep(d: Disk, w: Write)
    ensures AlwaysCore(d, [w]) <==> Core(d) && Core(ApplyWrite(d, w))
    ensures AlwaysCovered(d, [w]) <==> Covered(d) && Covered(ApplyWrite(d, w))
  {
    hide Core, Covered, ApplyWrite;
    assert [w][1..] == [];
    assert AlwaysCore(ApplyWrite(d, w), []) == Core(ApplyWrite(d, w));
  }

  lemma AddedFacts(accounts: seq<Summary>, s: Summary)
    requires UniqueIDs(accounts) && UniqueEmails(accounts) && s.email !in Emails(accounts)
    ensures UniqueIDs(accounts + [s]) <==> s.id !in IDs(accounts)
    ensures UniqueEmails(accounts + [s])
    ensures IDs(accounts + [s]) == IDs(accounts) + {s.id}
  {
    var all := accounts + [s];
    assert all[|accounts|] == s;
    forall k | 0 <= k < |accounts|
      ensures accounts[k].id in IDs(accounts) && accounts[k].email != s.email
    {
      MemberID(accounts, k);
    }
    if s.id in IDs(accounts) {
      var k := SomeMember(accounts, s.id);
      assert all[k].id == all[|accounts|].id;
    }
  }

  /** An add of an unlisted email is sound at every write exactly for an unlisted id. */
  lemma AddSafe(d: Disk, a: Account)
    requires Core(d)
    ensures AlwaysCore(d, AddPlan(d, a)) <==> a.email in Emails(d.index.accounts) || a.id !in IDs(d.index.accounts)
    ensures Covered(d) ==> AlwaysCovered(d, AddPlan(d, a))
  {
    if a.email !in Emails(d.index.accounts) {
      AddedFacts(d.index.accounts, SummaryOf(a));
      hide UniqueIDs, UniqueEmails, IDs, Emails;
      TwoSteps(d, SaveFile(a), SaveIndex(Added(d.index, a)));
    }
  }

  /** A change of one entry that keeps its id and email keeps the core facts. */
  lemma RewrittenFacts(i: Index, id: string, change: Summary -> Summary)
    requires forall s :: change(s).id == s.id && change(s).email == s.email
    ensures var i' := Rewritten(i, id, change);
            && IDs(i'.accounts) == IDs(i.accounts)
            && (UniqueIDs(i.accounts) ==> UniqueIDs(i'.accounts))
            && (UniqueEmails(i.accounts) ==> UniqueEmails(i'.accounts))
            && (CurrentNamed(i) ==> CurrentNamed(i'))
  {
    var old', new' := i.accounts, Rewritten(i, id, change).accounts;
    forall x ensures x in IDs(old') <==> x in IDs(new') {
      if x in IDs(old') {
        var k := SomeMember(old', x);
        MemberID(new', k);
      }
      if x in IDs(new') {
        var k := SomeMember(new', x);
        MemberID(old', k);
      }
    }
  }

  lemma UpsertSafe(d: Disk, email: string, name: Option<string>, token: Token, now: int)
    requires Core(d)
    ensures AlwaysCore(d, UpsertPlan(d, email, name, token, now))
    ensures Covered(d) ==> AlwaysCovered(d, UpsertPlan(d, email, name, token, now))
  {
    var k := EmailIndex(d.index.accounts, email);
    if k < |d.index.accounts| {
      var a := UpsertedAccount(d, email, name, token, now);
      var i := Renamed(d.index, d.index.accounts[k].id, name);
      RewrittenFacts(d.index, d.index.accounts[k].id, (s: Summary) => s.(name := name));
      hide Renamed, UniqueIDs, UniqueEmails, CurrentNamed, IDs;
      TwoSteps(d, SaveFile(a), SaveIndex(i));
    }
  }

  lemma DeletedFacts(i: Index, id: string)
    requires UniqueIDs(i.accounts) && UniqueEmails(i.accounts) && CurrentNamed(i)
    ensures UniqueIDs(Deleted(i, id).accounts) && UniqueEmails(Deleted(i, id).accounts) && CurrentNamed(Deleted(i, id))
    ensures IDs(Deleted(i, id).accounts) == IDs(i.accounts) - {id}
  {
    WithoutUnique(i.accounts, id);
    WithoutMembers(i.accounts, id);
    FirstNamed(Without(i.accounts, id));
    hide Without;
    if i.current.Some? && i.current != Some(id) {
      assert i.current.value in IDs(Deleted(i, id).accounts);
    }
  }

  lemma DeleteSafe(d: Disk, id: string)
    requires Core(d)
    ensures AlwaysCore(d, DeletePlan(d, id))
    ensures Covered(d) ==> AlwaysCovered(d, DeletePlan(d, id))
  {
    if id in IDs(d.index.accounts) {
      DeletedFacts(d.index, id);
      hide Deleted, UniqueIDs, UniqueEmails, CurrentNamed, IDs;
      TwoSteps(d, SaveIndex(Deleted(d.index, id)), RemoveFile(id));
    }
  }

  lemma DeletedAllFacts(i: Index, ids: seq<string>)
    requires UniqueIDs(i.accounts) && UniqueEmails(i.accounts) && CurrentNamed(i)
    ensures UniqueIDs(DeletedAll(i, ids).accounts) && UniqueEmails(DeletedAll(i, ids).accounts) &&
            CurrentNamed(DeletedAll(i, ids))
    ensures forall x :: x in IDs(DeletedAll(i, ids).accounts) <==> x in IDs(i.accounts) && x !in ids
  {
    WithoutAllFacts(i.accounts, ids);
    FirstNamed(WithoutAll(i.accounts, ids));
    hide WithoutAll;
    if i.current.Some? && i.current.value !in ids {
      assert i.current.value in IDs(DeletedAll(i, ids).accounts);
    }
  }

  /** After removing the files of `ids`, exactly those files are gone. */
  lemma {:induction false} RemovalsCore(d: Disk, ids: seq<string>, w: Write)
    requires Core(d) && w.SaveIndex?
    requires UniqueIDs(w.index.accounts) && UniqueEmails(w.index.accounts) && CurrentNamed(w.index)
    ensures AlwaysCore(d, Removals(ids) + [w])
    decreases |ids|
  {
    hide UniqueIDs, UniqueEmails, CurrentNamed, Removals;
    if ids == [] {
      assert Removals(ids) + [w] == [w];
      OneStep(d, w);
    } else {
      assert (Removals(ids) + [w])[1..] == Removals(ids[1..]) + [w];
      RemovalsCore(d.(files := d.files - {ids[0]}), ids[1..], w);
    }
  }

  lemma {:induction false} RemovalsCovered(d: Disk, ids: seq<string>, w: Write)
    requires w.SaveIndex? && Covered(d)
    requires forall x :: x in IDs(w.index.accounts) ==> x in IDs(d.index.accounts) && x !in ids
    ensures AlwaysCovered(d, Removals(ids) + [w]) <==> forall k :: 0 <= k < |ids| ==> ids[k] !in IDs(d.index.accounts)
    decreases |ids|
  {
    hide IDs, Removals;
    if ids == [] {
      assert Removals(ids) + [w] == [w];
      OneStep(d, w);
    } else {
      var d1 := d.(files := d.files - {ids[0]});
      assert (Removals(ids) + [w])[1..] == Removals(ids[1..]) + [w];
      assert AlwaysCovered(d, Removals(ids) + [w]) <==> AlwaysCovered(d1, Removals(ids[1..]) + [w]);
      if ids[0] !in IDs(d.index.accounts) {
        RemovalsCovered(d1, ids[1..], w);
        assert forall k :: 0 < k < |ids| ==> ids[k] == ids[1..][k - 1];
      } else {
        assert !Covered(d1);
      }
    }
  }

  /** The batch delete keeps the core at every write, but the index stays covered throughout
      exactly when none of the given ids is in it. */
  lemma DeleteAllSafe(d: Disk, ids: seq<string>)
    requires Core(d)
    ensures AlwaysCore(d, DeleteAllPlan(d, ids))
    ensures Covered(d) ==>
              (AlwaysCovered(d, DeleteAllPlan(d, ids)) <==>
                  forall k :: 0 <= k < |ids| ==> ids[k] !in IDs(d.index.accounts))
  {
    DeletedAllFacts(d.index, ids);
    RemovalsCore(d, ids, SaveIndex(DeletedAll(d.index, ids)));
    if Covered(d) {
      RemovalsCovered(d, ids, SaveIndex(DeletedAll(d.index, ids)));
    }
  }

  // ---- reordering ----

  /** A known id occurs at most once in the request. */
  ghost predicate NoKnownRepeats(ids: seq<string>, known: set<string>) {
    forall i, j :: 0 <= i < j < |ids| && ids[i] == ids[j] ==> ids[i] !in known
  }

  lemma {:induction false} ByIDFacts(accounts: seq<Summary>)
    ensures ByID(accounts).Keys == IDs(accounts)
    ensures forall id :: id in ByID(accounts) ==> ByID(accounts)[id] in accounts && ByID(accounts)[id].id == id
  {
    if accounts != [] {
      var init, last := accounts[..|accounts| - 1], accounts[|accounts| - 1];
      ByIDFacts(init);
      assert accounts == init + [last];
    }
  }

  lemma {:induction false} ListedMembers(known: map<string, Summary>, ids: seq<string>)
    requires forall id :: id in known ==> known[id].id == id
    ensures forall s :: s in Listed(known, ids) <==> s.id in ids && s.id in known && s == known[s.id]
  {
    if ids != [] {
      ListedMembers(known, ids[..|ids| - 1]);
      assert ids == ids[..|ids| - 1] + [ids[|ids| - 1]];
    }
  }

  lemma {:induction false} ListedUnique(known: map<string, Summary>, ids: seq<string>)
    requires forall id :: id in known ==> known[id].id == id
    ensures UniqueIDs(Listed(known, ids)) <==> NoKnownRepeats(ids, known.Keys)
  {
    if ids != [] {
      var init, last := ids[..|ids| - 1], ids[|ids| - 1];
      var front := Listed(known, init);
      ListedUnique(known, init);
      ListedMembers(known, init);
      RepeatsAppend(init, last, known.Keys);
      assert ids == init + [last];
      hide NoKnownRepeats, UniqueIDs;
      if last in known {
        assert Listed(known, ids) == front + [known[last]];
        AppendUnique(front, known[last]);
        assert known[last] in front <==> last in init;
        assert (forall t :: t in front ==> t.id != last) <==> last !in init;
      } else {
        assert Listed(known, ids) == front;
      }
    }
  }

  lemma AppendUnique(accounts: seq<Summary>, s: Summary)
    ensures UniqueIDs(accounts + [s]) <==> UniqueIDs(accounts) && forall t :: t in accounts ==> t.id != s.id
  {
    var all := accounts + [s];
    if UniqueIDs(all) {
      forall i, j | 0 <= i < j < |accounts| ensures accounts[i].id != accounts[j].id {
        assert all[i].id != all[j].id;
      }
      forall t | t in accounts ensures t.id != s.id {
        var k :| 0 <= k < |accounts| && accounts[k] == t;
        assert all[k].id != all[|accounts|].id;
      }
    }
  }

  lemma RepeatsAppend(ids: seq<string>, last: string, known: set<string>)
    ensures NoKnownRepeats(ids + [last], known) <==> NoKnownRepeats(ids, known) && (last in ids ==> last !in known)
  {
    var all := ids + [last];
    if NoKnownRepeats(all, known) {
      forall i, j | 0 <= i < j < |ids| && ids[i] == ids[j] ensures ids[i] !in known {
        assert all[i] == all[j];
      }
      if last in ids {
        var k :| 0 <= k < |ids| && ids[k] == last;
        assert all[k] == all[|ids|];
      }
    }
  }

  lemma {:induction false} UnlistedFacts(accounts: seq<Summary>, ids: seq<string>)
    ensures forall s :: s in Unlisted(accounts, ids) <==> s in accounts && s.id !in ids
    ensures UniqueIDs(accounts) ==> UniqueIDs(Unlisted(accounts, ids))
  {
    if accounts != [] {
      var init, last := accounts[..|accounts| - 1], accounts[|accounts| - 1];
      UnlistedFacts(init, ids);
      assert accounts == init + [last];
      AppendUnique(init, last);
      AppendUnique(Unlisted(init, ids), last);
    }
  }

  lemma JoinUnique(a: seq<Summary>, b: seq<Summary>)
    requires forall s, t :: s in a && t in b ==> s.id != t.id
    requires UniqueIDs(b)
    ensures UniqueIDs(a + b) <==> UniqueIDs(a)
  {
    if UniqueIDs(a + b) {
      forall i, j | 0 <= i < j < |a| ensures a[i].id != a[j].id {
        assert (a + b)[i].id != (a + b)[j].id;
      }
    }
  }

  lemma SummaryByID(accounts: seq<Summary>, s: Summary)
    requires UniqueIDs(accounts) && s in accounts
    ensures s.id in ByID(accounts) && ByID(accounts)[s.id] == s
  {
    ByIDFacts(accounts);
    var t := ByID(accounts)[s.id];
    var i :| 0 <= i < |accounts| && accounts[i] == s;
    var j :| 0 <= j < |accounts| && accounts[j] == t;
  }

  /** Reordering neither adds nor loses an entry, and keeps ids unique exactly when no known
      id is given twice. */
  lemma ReorderFacts(accounts: seq<Summary>, ids: seq<string>)
    requires UniqueIDs(accounts)
    ensures forall s :: s in Reordered(accounts, ids) <==> s in accounts
    ensures UniqueIDs(Reordered(accounts, ids)) <==> NoKnownRepeats(ids, IDs(accounts))
  {
    ByIDFacts(accounts);
    ListedMembers(ByID(accounts), ids);
    ListedUnique(ByID(accounts), ids);
    UnlistedFacts(accounts, ids);
    JoinUnique(Listed(ByID(accounts), ids), Unlisted(accounts, ids));
    forall s
      ensures s in Reordered(accounts, ids) <==> s in accounts
    {
      if s in accounts {
        SummaryByID(accounts, s);
      }
    }
  }

  lemma {:induction false} UniqueMultiset(accounts: seq<Summary>)
    requires UniqueIDs(accounts)
    ensures multiset(accounts) == multiset(set s | s in accounts)
  {
    if accounts != [] {
      var init, last := accounts[..|accounts| - 1], accounts[|accounts| - 1];
      assert accounts == init + [last];
      AppendUnique(init, last);
      UniqueMultiset(init);
      assert (set s | s in accounts) == (set s | s in init) + {last};
    }
  }

  function KnownOnly(ids: seq<string>, known: set<string>): seq<string> {
    if ids == [] then []
    else KnownOnly(ids[..|ids| - 1], known) + (if ids[|ids| - 1] in known then [ids[|ids| - 1]] else [])
  }

  function IDList(accounts: seq<Summary>): (ids: seq<string>)
    ensures |ids| == |accounts| && forall k :: 0 <= k < |accounts| ==> ids[k] == accounts[k].id
  {
    seq(|accounts|, k requires 0 <= k < |accounts| => accounts[k].id)
  }

  lemma {:induction false} ListedIDs(known: map<string, Summary>, ids: seq<string>)
    requires forall id :: id in known ==> known[id].id == id
    ensures IDList(Listed(known, ids)) == KnownOnly(ids, known.Keys)
  {
    if ids != [] {
      ListedIDs(known, ids[..|ids| - 1]);
    }
  }

  lemma SameMembersPermute(a: seq<Summary>, b: seq<Summary>)
    requires UniqueIDs(a) && UniqueIDs(b) && forall s :: s in a <==> s in b
    ensures multiset(a) == multiset(b)
  {
    UniqueMultiset(a);
    UniqueMultiset(b);
    assert (set s | s in a) == (set s | s in b);
  }

  /** With no repeated known id a reorder is a permutation: the known ids first, as given,
      then the other entries in their old order. */
  lemma ReorderPermutes(accounts: seq<Summary>, ids: seq<string>)
    requires UniqueIDs(accounts) && NoKnownRepeats(ids, IDs(accounts))
    ensures multiset(Reordered(accounts, ids)) == multiset(accounts)
    ensures IDList(Reordered(accounts, ids)) == KnownOnly(ids, IDs(accounts)) + IDList(Unlisted(accounts, ids))
  {
    ReorderFacts(accounts, ids);
    SameMembersPermute(Reordered(accounts, ids), accounts);
    ByIDFacts(accounts);
    ListedIDs(ByID(accounts), ids);
    hide *;
    IDListJoin(accounts, ids);
  }

  lemma IDListJoin(accounts: seq<Summary>, ids: seq<string>)
    ensures IDList(Reordered(accounts, ids)) == IDList(Listed(ByID(accounts), ids)) + IDList(Unlisted(accounts, ids))
  {
    hide Listed, Unlisted, ByID;
  }

  lemma EmailsFollow(accounts: seq<Summary>, reordered: seq<Summary>)
    requires UniqueEmails(accounts) && UniqueIDs(reordered) && forall s :: s in reordered ==> s in accounts
    ensures UniqueEmails(reordered)
  {
    forall i, j | 0 <= i < j < |reordered|
      ensures reordered[i].email != reordered[j].email
    {
      assert reordered[i] in accounts && reordered[j] in accounts;
      var a :| 0 <= a < |accounts| && accounts[a] == reordered[i];
      var b :| 0 <= b < |accounts| && accounts[b] == reordered[j];
      assert a != b;
    }
  }

  lemma ReorderSafe(d: Disk, ids: seq<string>)
    requires Core(d)
    ensures AlwaysCore(d, ReorderPlan(d, ids)) <==> NoKnownRepeats(ids, IDs(d.index.accounts))
    ensures Covered(d) ==> AlwaysCovered(d, ReorderPlan(d, ids))
  {
    var accounts := Reordered(d.index.accounts, ids);
    ReorderFacts(d.index.accounts, ids);
    hide Reordered;
    OneStep(d, SaveIndex(d.index.(accounts := accounts)));
    assert IDs(accounts) == IDs(d.index.accounts);
    if UniqueIDs(accounts) {
      EmailsFollow(d.index.accounts, accounts);
    }
    assert accounts == [] <==> d.index.accounts == [] by {
      if accounts != [] { assert accounts[0] in accounts; }
      if d.index.accounts != [] { assert d.index.accounts[0] in d.index.accounts; }
    }
  }

  /** Setting the current account is unchecked: it keeps the core exactly for a listed id. */
  lemma SetCurrentSafe(d: Disk, id: string)
    requires Core(d)
    ensures AlwaysCore(d, SetCurrentPlan(d, id)) <==> id in IDs(d.index.accounts)
    ensures Covered(d) ==> AlwaysCovered(d, SetCurrentPlan(d, id))
  {
    OneStep(d, SaveIndex(d.index.(current := Some(id))));
  }

  lemma ToggleProxySafe(d: Disk, id: string, off: bool)
    requires Core(d)
    ensures AlwaysCore(d, ToggleProxyPlan(d, id, off))
    ensures Covered(d) ==> AlwaysCovered(d, ToggleProxyPlan(d, id, off))
  {
    if id in d.files && d.files[id].Readable? {
      var a := d.files[id].account.(proxyDisabled := off);
      var i := Rewritten(d.index, id, (s: Summary) => s.(proxyDisabled := off));
      RewrittenFacts(d.index, id, (s: Summary) => s.(proxyDisabled := off));
      hide Rewritten, UniqueIDs, UniqueEmails, CurrentNamed, IDs;
      OneStep(d, SaveFile(a));
      TwoSteps(d, SaveFile(a), SaveIndex(i));
    }
  }

  lemma ProtectSafe(d: Disk, id: string, models: set<string>)
    requires Core(d)
    ensures AlwaysCore(d, ProtectPlan(d, id, models))
    ensures Covered(d) ==> AlwaysCovered(d, ProtectPlan(d, id, models))
  {
    var i := Rewritten(d.index, id, (s: Summary) => s.(protectedModels := models));
    RewrittenFacts(d.index, id, (s: Summary) => s.(protectedModels := models));
    hide Rewritten, UniqueIDs, UniqueEmails, CurrentNamed, IDs;
    OneStep(d, SaveIndex(i));
  }

  // ---- what is on the disk afterwards ----

  /** The file of one account is the given one; every other file is as it was. */
  ghost predicate OnlyFile(before: Disk, after: Disk, a: Account) {
    && a.id in after.files && after.files[a.id] == Readable(a)
    && forall id :: id != a.id ==>
         (id in after.files <==> id in before.files) && (id in after.files ==> after.files[id] == before.files[id])
  }

  /** The first entry of the id is now `entry`; the others, and the current id, are as they were. */
  ghost predicate OnlyEntry(before: Index, after: Index, id: string, entry: Summary) {
    && after.current == before.current && |after.accounts| == |before.accounts|
    && exists k :: && 0 <= k < |before.accounts| && before.accounts[k].id == id && after.accounts[k] == entry
                   && (forall j :: 0 <= j < k ==> before.accounts[j].id != id)
                   && (forall j :: 0 <= j < |before.accounts| && j != k ==> after.accounts[j] == before.accounts[j])
  }

  /** A new entry at the end, which becomes the current one where there was none. */
  ghost predicate NewEntry(before: Index, after: Index, entry: Summary) {
    && after.accounts == before.accounts + [entry]
    && after.current == if before.current.None? then Some(entry.id) else before.current
  }

  /** A fresh account: enabled, nothing protected, created and used now. */
  ghost predicate IsNew(a: Account, id: string, email: string, name: Option<string>, token: Token, now: int) {
    && a.id == id && a.email == email && a.name == name && a.token == token
    && !a.disabled && !a.proxyDisabled && a.protectedModels == {} && a.createdAt == now && a.lastUsed == now
  }

  /** The entry says what the file says. */
  predicate Summarizes(s: Summary, a: Account) {
    && s.id == a.id && s.email == a.email && s.name == a.name && s.disabled == a.disabled
    && s.proxyDisabled == a.proxyDisabled && s.protectedModels == a.protectedModels
    && s.createdAt == a.createdAt && s.lastUsed == a.lastUsed
  }

  lemma TwoApplied(d: Disk, w1: Write, w2: Write)
    ensures ApplyAll(d, [w1, w2]) == ApplyWrite(ApplyWrite(d, w1), w2)
  {
    TwoWrites(d, w1, w2);
  }

  lemma FileThenIndex(d: Disk, a: Account, i: Index)
    ensures var after := ApplyAll(d, [SaveFile(a), SaveIndex(i)]); after.index == i && OnlyFile(d, after, a)
  {
    TwoApplied(d, SaveFile(a), SaveIndex(i));
    hide ApplyAll;
  }

  /** Adding an account with an unlisted email stores it fresh and lists it at the end. */
  lemma AddStores(d: Disk, id: string, email: string, name: Option<string>, token: Token, now: int)
    requires forall s :: s in d.index.accounts ==> s.email != email
    ensures var a := NewAccount(id, email, name, token, now);
            var after := ApplyAll(d, AddPlan(d, a));
            && IsNew(a, id, email, name, token, now) && OnlyFile(d, after, a)
            && exists entry :: NewEntry(d.index, after.index, entry) && Summarizes(entry, a)
  {
    var a := NewAccount(id, email, name, token, now);
    assert email !in Emails(d.index.accounts);
    TwoApplied(d, SaveFile(a), SaveIndex(Added(d.index, a)));
    assert NewEntry(d.index, Added(d.index, a), SummaryOf(a));
  }

  /** The account that an upsert stores and returns: the credentials, the name and the time given,
      disabled only if it was disabled with these same credentials, and all else as it was; or,
      where no readable file was, fresh. */
  ghost predicate Upserted(before: Disk, a: Account, email: string, name: Option<string>, token: Token, now: int) {
    if a.id in before.files && before.files[a.id].Readable? then
      var old' := before.files[a.id].account;
      && a.token == token && a.name == name && a.lastUsed == now
      && (a.disabled <==> old'.disabled && old'.token == token)
      && a.email == old'.email && a.proxyDisabled == old'.proxyDisabled
      && a.protectedModels == old'.protectedModels && a.createdAt == old'.createdAt
    else IsNew(a, a.id, email, name, token, now)
  }

  /** An upsert of a listed email stores the account of its first entry, and renames the first entry of that
      account. */
  lemma UpsertStores(d: Disk, email: string, name: Option<string>, token: Token, now: int)
    requires FilesNamed(d.files)
    requires EmailIndex(d.index.accounts, email) < |d.index.accounts|
    ensures var k := EmailIndex(d.index.accounts, email);
            var a := UpsertedAccount(d, email, name, token, now);
            var after := ApplyAll(d, UpsertPlan(d, email, name, token, now));
            && d.index.accounts[k].email == email && (forall j :: 0 <= j < k ==> d.index.accounts[j].email != email)
            && a.id == d.index.accounts[k].id
            && Upserted(d, a, email, name, token, now) && OnlyFile(d, after, a)
            && exists s :: && s in d.index.accounts && s.id == a.id
                           && OnlyEntry(d.index, after.index, a.id, s.(name := name))
  {
    var k := EmailIndex(d.index.accounts, email);
    var a := UpsertedAccount(d, email, name, token, now);
    UpsertedIs(d, email, name, token, now);
    MemberID(d.index.accounts, k);
    hide UpsertedAccount, Upserted, OnlyEntry, OnlyFile, ApplyAll, IDs, EmailIndex, FilesNamed;
    var s := EntryRewritten(d.index, a.id, (s: Summary) => s.(name := name));
    FileThenIndex(d, a, Renamed(d.index, a.id, name));
    hide Rewritten;
  }

  lemma UpsertedIs(d: Disk, email: string, name: Option<string>, token: Token, now: int)
    requires FilesNamed(d.files) && EmailIndex(d.index.accounts, email) < |d.index.accounts|
    ensures var a := UpsertedAccount(d, email, name, token, now);
            Upserted(d, a, email, name, token, now) && a.id == d.index.accounts[EmailIndex(d.index.accounts, email)].id
  {
    hide EmailIndex;
  }

  /** Rewriting changes the first entry of a listed id and no other. */
  lemma EntryRewritten(i: Index, id: string, change: Summary -> Summary) returns (s: Summary)
    requires id in IDs(i.accounts)
    ensures s in i.accounts && s.id == id && OnlyEntry(i, Rewritten(i, id, change), id, change(s))
  {
    var k := FirstEntry(i.accounts, id);
    s := i.accounts[k];
  }

  /** Deleting a listed account removes its entry and its file and nothing else; where it was the
      current one, the first entry left becomes current. */
  lemma DeleteRemoves(d: Disk, id: string)
    requires id in IDs(d.index.accounts)
    ensures var after := ApplyAll(d, DeletePlan(d, id));
            && (forall x :: x in after.files <==> x in d.files && x != id)
            && (forall x :: x in after.files ==> after.files[x] == d.files[x])
            && after.index.accounts == Filter(d.index.accounts, Outside({id}))
            && after.index.current ==
               if d.index.current != Some(id) then d.index.current
               else if after.index.accounts == [] then None else Some(after.index.accounts[0].id)
  {
    TwoApplied(d, SaveIndex(Deleted(d.index, id)), RemoveFile(id));
    WithoutRemains(d.index.accounts, id);
    hide Without, Filter, ApplyAll;
  }

  function Outside(gone: set<string>): Summary -> bool {
    (s: Summary) => s.id !in gone
  }

  lemma {:induction false} FilterCons(s: Summary, rest: seq<Summary>, p: Summary -> bool)
    ensures Filter([s] + rest, p) == (if p(s) then [s] else []) + Filter(rest, p)
  {
    if rest == [] {
      assert ([s] + rest)[..0] == [];
    } else {
      var init, last := rest[..|rest| - 1], rest[|rest| - 1];
      FilterCons(s, init, p);
      assert ([s] + rest)[..|rest|] == [s] + init;
    }
  }

  /** The entries of other ids, in their order. */
  lemma {:induction false} WithoutRemains(accounts: seq<Summary>, id: string)
    ensures Without(accounts, id) == Filter(accounts, Outside({id}))
  {
    if accounts != [] {
      WithoutRemains(accounts[1..], id);
      FilterCons(accounts[0], accounts[1..], Outside({id}));
      assert accounts == [accounts[0]] + accounts[1..];
    }
  }

  lemma {:induction false} FilterTwice(accounts: seq<Summary>, gone: set<string>, id: string)
    ensures Filter(Filter(accounts, Outside(gone)), Outside({id})) == Filter(accounts, Outside(gone + {id}))
  {
    if accounts != [] {
      var init, last := accounts[..|accounts| - 1], accounts[|accounts| - 1];
      FilterTwice(init, gone, id);
      var kept := Filter(init, Outside(gone));
      assert kept + [] == kept && (kept + [last])[..|kept|] == kept;
    }
  }

  lemma {:induction false} WithoutAllRemains(accounts: seq<Summary>, ids: seq<string>)
    ensures WithoutAll(accounts, ids) == Filter(accounts, Outside(set id | id in ids))
  {
    var gone := set id | id in ids;
    if ids == [] {
      FilterAll(accounts, gone);
    } else {
      var init, last := ids[..|ids| - 1], ids[|ids| - 1];
      WithoutAllRemains(accounts, init);
      WithoutRemains(WithoutAll(accounts, init), last);
      FilterTwice(accounts, (set id | id in init), last);
      assert gone == (set id | id in init) + {last};
    }
  }

  lemma {:induction false} FilterAll(accounts: seq<Summary>, gone: set<string>)
    requires gone == {}
    ensures Filter(accounts, Outside(gone)) == accounts
  {
    if accounts != [] {
      FilterAll(accounts[..|accounts| - 1], gone);
    }
  }

  lemma {:induction false} RemovalsApplied(d: Disk, ids: seq<string>, w: Write)
    requires w.SaveIndex?
    ensures var after := ApplyAll(d, Removals(ids) + [w]);
            && after.index == w.index
            && (forall x :: x in after.files <==> x in d.files && x !in ids)
            && (forall x :: x in after.files ==> after.files[x] == d.files[x])
    decreases |ids|
  {
    var all := Removals(ids) + [w];
    if ids == [] {
      assert all == [w] && [w][1..] == [];
    } else {
      RemovalsApplied(ApplyWrite(d, RemoveFile(ids[0])), ids[1..], w);
      assert all[0] == RemoveFile(ids[0]);
      assert all[1..] == Removals(ids[1..]) + [w];
      assert ids == [ids[0]] + ids[1..];
    }
  }

  /** A batch delete removes the entries and the files of the given ids, listed or not. */
  lemma DeleteAllRemoves(d: Disk, ids: seq<string>)
    ensures var after := ApplyAll(d, DeleteAllPlan(d, ids));
            && (forall x :: x in after.files <==> x in d.files && x !in ids)
            && (forall x :: x in after.files ==> after.files[x] == d.files[x])
            && after.index.accounts == Filter(d.index.accounts, Outside(set x | x in ids))
            && after.index.current ==
               if d.index.current.Some? && d.index.current.value !in ids then d.index.current
               else if after.index.accounts == [] then None else Some(after.index.accounts[0].id)
  {
    hide WithoutAll, Removals, ApplyAll, Filter;
    RemovalsApplied(d, ids, SaveIndex(DeletedAll(d.index, ids)));
    WithoutAllRemains(d.index.accounts, ids);
  }

  /** Switching the proxy off or on is seen in the file and in the first entry of the id. */
  lemma ToggleProxyStores(d: Disk, id: string, off: bool)
    requires FilesNamed(d.files) && id in d.files && d.files[id].Readable?
    ensures var after := ApplyAll(d, ToggleProxyPlan(d, id, off));
            && OnlyFile(d, after, d.files[id].account.(proxyDisabled := off))
            && if forall s :: s in d.index.accounts ==> s.id != id then after.index == d.index
               else exists s :: && s in d.index.accounts && s.id == id
                                && OnlyEntry(d.index, after.index, id, s.(proxyDisabled := off))
  {
    var a := d.files[id].account.(proxyDisabled := off);
    var i := Rewritten(d.index, id, (s: Summary) => s.(proxyDisabled := off));
    if id in IDs(d.index.accounts) {
      var n := SomeMember(d.index.accounts, id);
      assert exists s :: s in d.index.accounts && s.id == id;
      hide OnlyEntry, OnlyFile, ApplyAll, IDs;
      var s := EntryRewritten(d.index, id, (s: Summary) => s.(proxyDisabled := off));
      FileThenIndex(d, a, i);
      hide Rewritten;
    } else {
      assert [SaveFile(a)][1..] == [];
      assert ApplyAll(d, [SaveFile(a)]) == ApplyAll(ApplyWrite(d, SaveFile(a)), []);
      assert forall s :: s in d.index.accounts ==> s.id in IDs(d.index.accounts);
    }
  }

  /** The index part of a quota update is seen in the first entry of the id, and nowhere else. */
  lemma ProtectStores(d: Disk, id: string, models: set<string>)
    ensures var after := ApplyAll(d, ProtectPlan(d, id, models));
            && after.files == d.files
            && if forall s :: s in d.index.accounts ==> s.id != id then after.index == d.index
               else exists s :: && s in d.index.accounts && s.id == id
                                && OnlyEntry(d.index, after.index, id, s.(protectedModels := models))
  {
    var i := Rewritten(d.index, id, (s: Summary) => s.(protectedModels := models));
    if id in IDs(d.index.accounts) {
      assert exists s :: s in d.index.accounts && s.id == id;
      hide OnlyEntry, IDs;
      var s := EntryRewritten(d.index, id, (s: Summary) => s.(protectedModels := models));
      assert [SaveIndex(i)][1..] == [];
      assert ApplyAll(d, [SaveIndex(i)]) == ApplyAll(ApplyWrite(d, SaveIndex(i)), []);
      hide Rewritten;
    } else {
      assert forall s :: s in d.index.accounts ==> s.id in IDs(d.index.accounts);
    }
  }

  lemma FirstEntry(accounts: seq<Summary>, id: string) returns (k: nat)
    requires id in IDs(accounts)
    ensures k < |accounts| && accounts[k].id == id && forall j :: 0 <= j < k ==> accounts[j].id != id
    ensures k == FirstIndex(accounts, (s: Summary) => s.id == id)
  {
    k := FirstIndex(accounts, (s: Summary) => s.id == id);
    var n := SomeMember(accounts, id);
  }
}
