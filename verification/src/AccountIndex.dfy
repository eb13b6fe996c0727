/** The ordered account index and the directory of account files behind it. */
module AccountIndex {
  import opened Wrappers
  import opened Search

  datatype Token = Token(accessToken: string, refreshToken: string)

  datatype Account = Account(
    id: string,
    email: string,
    name: Option<string>,
    token: Token,
    disabled: bool,
    proxyDisabled: bool,
    protectedModels: set<string>,
    createdAt: int,
    lastUsed: int)

  datatype Summary = Summary(
    id: string,
    email: string,
    name: Option<string>,
    disabled: bool,
    proxyDisabled: bool,
    protectedModels: set<string>,
    createdAt: int,
    lastUsed: int)

  datatype Index = Index(accounts: seq<Summary>, current: Option<string>)

  datatype File = Readable(account: Account) | Unreadable

  /** What is on disk: the index file and the account files by stem. */
  datatype Disk = Disk(index: Index, files: map<string, File>)

  /** The three atomic writes. */
  datatype Write = SaveFile(account: Account) | SaveIndex(index: Index) | RemoveFile(id: string)

  function ApplyWrite(d: Disk, w: Write): Disk {
    match w
    case SaveFile(a) => d.(files := d.files[a.id := Readable(a)])
    case SaveIndex(i) => d.(index := i)
    case RemoveFile(id) => d.(files := d.files - {id})
  }

  function ApplyAll(d: Disk, ws: seq<Write>): Disk
    decreases |ws|
  {
    if ws == [] then d else ApplyAll(ApplyWrite(d, ws[0]), ws[1..])
  }

  /** The disks seen after each write: where a crash may leave the store. */
  function States(d: Disk, ws: seq<Write>): seq<Disk>
    decreases |ws|
  {
    if ws == [] then [] else [ApplyWrite(d, ws[0])] + States(ApplyWrite(d, ws[0]), ws[1..])
  }

  // ---- index operations ----

  function IDs(accounts: seq<Summary>): set<string> {
    set s | s in accounts :: s.id
  }

  function Emails(accounts: seq<Summary>): set<string> {
    set s | s in accounts :: s.email
  }

  function Without(accounts: seq<Summary>, id: string): seq<Summary> {
    if accounts == [] then []
    else if accounts[0].id == id then Without(accounts[1..], id)
    else [accounts[0]] + Without(accounts[1..], id)
  }

  function FirstID(accounts: seq<Summary>): Option<string> {
    if accounts == [] then None else Some(accounts[0].id)
  }

  function SummaryOf(a: Account): Summary {
    Summary(a.id, a.email, a.name, a.disabled, a.proxyDisabled, a.protectedModels, a.createdAt, a.lastUsed)
  }

  function NewAccount(id: string, email: string, name: Option<string>, token: Token, now: int): Account {
    Account(id, email, name, token, false, false, {}, now, now)
  }

  function Added(i: Index, a: Account): Index {
    Index(i.accounts + [SummaryOf(a)], if i.current.None? then Some(a.id) else i.current)
  }

  function Updated(a: Account, name: Option<string>, token: Token, now: int): Account {
    a.(token := token, name := name, lastUsed := now, disabled := a.disabled && a.token == token)
  }

  function EmailIndex(accounts: seq<Summary>, email: string): (k: nat)
    ensures k <= |accounts|
  {
    FirstIndex(accounts, (s: Summary) => s.email == email)
  }

  /** The first entry with the id, if there is one, is changed. */
  function Rewritten(i: Index, id: string, change: Summary -> Summary): Index {
    var k := FirstIndex(i.accounts, (s: Summary) => s.id == id);
    if k < |i.accounts| then i.(accounts := i.accounts[k := change(i.accounts[k])]) else i
  }

  function Renamed(i: Index, id: string, name: Option<string>): Index {
    Rewritten(i, id, (s: Summary) => s.(name := name))
  }

  function Deleted(i: Index, id: string): Index {
    var rest := Without(i.accounts, id);
    Index(rest, if i.current == Some(id) then FirstID(rest) else i.current)
  }

  function WithoutAll(accounts: seq<Summary>, ids: seq<string>): seq<Summary> {
    if ids == [] then accounts else Without(WithoutAll(accounts, ids[..|ids| - 1]), ids[|ids| - 1])
  }

  function DeletedAll(i: Index, ids: seq<string>): Index {
    var rest := WithoutAll(i.accounts, ids);
    var kept := if i.current.Some? && i.current.value in ids then None else i.current;
    Index(rest, if kept.None? then FirstID(rest) else kept)
  }

  function ByID(accounts: seq<Summary>): map<string, Summary> {
    if accounts == [] then map[]
    else ByID(accounts[..|accounts| - 1])[accounts[|accounts| - 1].id := accounts[|accounts| - 1]]
  }

  function Listed(known: map<string, Summary>, ids: seq<string>): seq<Summary> {
    if ids == [] then []
    else Listed(known, ids[..|ids| - 1]) + (if ids[|ids| - 1] in known then [known[ids[|ids| - 1]]] else [])
  }

  function Unlisted(accounts: seq<Summary>, ids: seq<string>): seq<Summary> {
    if accounts == [] then []
    else Unlisted(accounts[..|accounts| - 1], ids) +
         (if accounts[|accounts| - 1].id !in ids then [accounts[|accounts| - 1]] else [])
  }

  function Reordered(accounts: seq<Summary>, ids: seq<string>): seq<Summary> {
    Listed(ByID(accounts), ids) + Unlisted(accounts, ids)
  }

  // ---- operations as plans of writes, fixed when the lock is taken ----

  function AddPlan(d: Disk, a: Account): seq<Write> {
    if a.email in Emails(d.index.accounts) then [] else [SaveFile(a), SaveIndex(Added(d.index, a))]
  }

  /** The account that an upsert of a known email writes: updated, or recreated if unreadable. */
  function UpsertedAccount(d: Disk, email: string, name: Option<string>, token: Token, now: int): Account
    requires EmailIndex(d.index.accounts, email) < |d.index.accounts|
  {
    var id := d.index.accounts[EmailIndex(d.index.accounts, email)].id;
    if id in d.files && d.files[id].Readable? then Updated(d.files[id].account, name, token, now)
    else NewAccount(id, email, name, token, now)
  }

  function UpsertPlan(d: Disk, email: string, name: Option<string>, token: Token, now: int): seq<Write> {
    var k := EmailIndex(d.index.accounts, email);
    if k == |d.index.accounts| then []
    else [SaveFile(UpsertedAccount(d, email, name, token, now)),
        SaveIndex(Renamed(d.index, d.index.accounts[k].id, name))]
  }

  function DeletePlan(d: Disk, id: string): seq<Write> {
    if id !in IDs(d.index.accounts) then [] else [SaveIndex(Deleted(d.index, id)), RemoveFile(id)]
  }

  function Removals(ids: seq<string>): (ws: seq<Write>)
    ensures |ws| == |ids| && forall i :: 0 <= i < |ids| ==> ws[i] == RemoveFile(ids[i])
  {
    seq(|ids|, i requires 0 <= i < |ids| => RemoveFile(ids[i]))
  }

  /** The batch removes every file first and saves the index last. */
  function DeleteAllPlan(d: Disk, ids: seq<string>): seq<Write> {
    Removals(ids) + [SaveIndex(DeletedAll(d.index, ids))]
  }

  function ReorderPlan(d: Disk, ids: seq<string>): seq<Write> {
    [SaveIndex(d.index.(accounts := Reordered(d.index.accounts, ids)))]
  }

  function SetCurrentPlan(d: Disk, id: string): seq<Write> {
    [SaveIndex(d.index.(current := Some(id)))]
  }

  /** The proxy flag changes in the file, which must be readable, and then in the index entry. */
  function ToggleProxyPlan(d: Disk, id: string, off: bool): seq<Write> {
    if id !in d.files || !d.files[id].Readable? then []
    else
      var file := SaveFile(d.files[id].account.(proxyDisabled := off));
      if id !in IDs(d.index.accounts) then [file]
      else [file, SaveIndex(Rewritten(d.index, id, (s: Summary) => s.(proxyDisabled := off)))]
  }

  /** The index part of a quota update; the file is written before, outside the lock. */
  function ProtectPlan(d: Disk, id: string, models: set<string>): seq<Write> {
    if id !in IDs(d.index.accounts) then []
    else [SaveIndex(Rewritten(d.index, id, (s: Summary) => s.(protectedModels := models)))]
  }

  // ---- the operations themselves ----

  lemma StatesAppend(d: Disk, ws: seq<Write>, w: Write)
    ensures States(d, ws + [w]) == States(d, ws) + [ApplyWrite(ApplyAll(d, ws), w)]
    ensures ApplyAll(d, ws + [w]) == ApplyWrite(ApplyAll(d, ws), w)
    decreases |ws|
  {
    if ws != [] {
      assert (ws + [w])[1..] == ws[1..] + [w];
      StatesAppend(ApplyWrite(d, ws[0]), ws[1..], w);
    } else {
      assert ws + [w] == [w] && [w][1..] == [];
      assert States(d, [w]) == [ApplyWrite(d, w)] + States(ApplyWrite(d, w), []);
      assert ApplyAll(d, [w]) == ApplyAll(ApplyWrite(d, w), []);
    }
  }

  class Store {
    var disk: Disk
    ghost var trace: seq<Disk>  // every state the disk has been in, in order

    method Perform(w: Write)
      modifies this
      ensures disk == ApplyWrite(old(disk), w)
      ensures trace == old(trace) + [disk]
    {
      match w {
        case SaveFile(a) => disk := disk.(files := disk.files[a.id := Readable(a)]);
        case SaveIndex(i) => disk := disk.(index := i);
        case RemoveFile(id) => disk := disk.(files := disk.files - {id});
      }
      trace := trace + [disk];
    }

    method AddAccount(email: string, name: Option<string>, token: Token, id: string, now: int)
      returns (r: Result<Account>)
      modifies this
      ensures var a := NewAccount(id, email, name, token, now);
              && trace == old(trace) + States(old(disk), AddPlan(old(disk), a))
              && disk == ApplyAll(old(disk), AddPlan(old(disk), a))
              && (r.Success? <==> email !in Emails(old(disk).index.accounts))
              && (r.Success? ==> r.value == a)
    {
      var index := disk.index;
      if exists s :: s in index.accounts && s.email == email {
        return Failure("Account already exists");
      }
      ghost var d := disk;
      var account := NewAccount(id, email, name, token, now);
      Perform(SaveFile(account));
      index := index.(accounts := index.accounts + [SummaryOf(account)]);
      if index.current.None? {
        index := index.(current := Some(id));
      }
      Perform(SaveIndex(index));
      TwoWrites(d, SaveFile(account), SaveIndex(index));
      return Success(account);
    }

    /** The known email is updated under one lock; an unknown one releases it and adds. */
    method UpsertAccount(email: string, name: Option<string>, token: Token, id: string, now: int)
      returns (r: Result<Account>)
      modifies this
      ensures var plan := if email in Emails(old(disk).index.accounts)
              then UpsertPlan(old(disk), email, name, token, now)
                          else AddPlan(old(disk), NewAccount(id, email, name, token, now));
              trace == old(trace) + States(old(disk), plan) && disk == ApplyAll(old(disk), plan)
      ensures EmailIndex(old(disk).index.accounts, email) < |old(disk).index.accounts| <==>
              email in Emails(old(disk).index.accounts)
      ensures r == Success(if EmailIndex(old(disk).index.accounts, email) < |old(disk).index.accounts|
                           then UpsertedAccount(old(disk), email, name, token, now)
                           else NewAccount(id, email, name, token, now))
    {
      hide Updated;
      ghost var d := disk;
      var index := disk.index;
      var k := FindFirst(index.accounts, (s: Summary) => s.email == email);
      if k == |index.accounts| {
        r := AddAccount(email, name, token, id, now);
        return;
      }
      assert index.accounts[k] in index.accounts;
      var accountID := index.accounts[k].id;
      var account := NewAccount(accountID, email, name, token, now);
      if accountID in disk.files && disk.files[accountID].Readable? {
        account := Refresh(disk.files[accountID].account, name, token, now);
      }
      Perform(SaveFile(account));
      var m := FindFirst(index.accounts, (s: Summary) => s.id == accountID);
      index := index.(accounts := index.accounts[m := index.accounts[m].(name := name)]);
      Perform(SaveIndex(index));
      TwoWrites(d, SaveFile(account), SaveIndex(index));
      return Success(account);
    }

    /** New credentials re-enable an account. */
    static method Refresh(account0: Account, name: Option<string>, token: Token, now: int) returns (account: Account)
      ensures account == Updated(account0, name, token, now)
    {
      account := account0.(token := token, name := name);
      if account.disabled && account.token != account0.token {
        account := account.(disabled := false);
      }
      account := account.(lastUsed := now);
    }

    method DeleteAccount(id: string) returns (ok: bool)
      modifies this
      ensures trace == old(trace) + States(old(disk), DeletePlan(old(disk), id))
      ensures disk == ApplyAll(old(disk), DeletePlan(old(disk), id))
      ensures ok <==> id in IDs(old(disk).index.accounts)
    {
      ghost var d := disk;
      var index := disk.index;
      var kept := Retain(index.accounts, id);
      WithoutLength(index.accounts, id);
      if |kept| == |index.accounts| {
        return false;
      }
      index := index.(accounts := kept);
      if index.current == Some(id) {
        index := index.(current := FirstID(index.accounts));
      }
      Perform(SaveIndex(index));
      Perform(RemoveFile(id));
      TwoWrites(d, SaveIndex(index), RemoveFile(id));
      return true;
    }

    static method Retain(accounts: seq<Summary>, id: string) returns (kept: seq<Summary>)
      ensures kept == Without(accounts, id)
    {
      kept := [];
      for i := 0 to |accounts|
        invariant kept + Without(accounts[i..], id) == Without(accounts, id)
      {
        assert accounts[i..][1..] == accounts[i + 1..];
        if accounts[i].id != id {
          kept := kept + [accounts[i]];
        }
      }
    }

    method DeleteAccounts(ids: seq<string>)
      modifies this
      ensures trace == old(trace) + States(old(disk), DeleteAllPlan(old(disk), ids))
      ensures disk == ApplyAll(old(disk), DeleteAllPlan(old(disk), ids))
    {
      hide Without, ApplyAll, States, ApplyWrite;
      ghost var d := disk;
      var index := disk.index;
      NoWrites(d);
      assert Removals([]) == [];
      for i := 0 to |ids|
        invariant index.accounts == WithoutAll(d.index.accounts, ids[..i])
        invariant index.current == if d.index.current.Some? && d.index.current.value in ids[..i] then None
                  else d.index.current
        invariant trace == old(trace) + States(d, Removals(ids[..i]))
        invariant disk == ApplyAll(d, Removals(ids[..i]))
      {
        assert ids[..i + 1][..i] == ids[..i];
        assert ids[..i + 1] == ids[..i] + [ids[i]];
        assert Removals(ids[..i + 1]) == Removals(ids[..i]) + [RemoveFile(ids[i])];
        StatesAppend(d, Removals(ids[..i]), RemoveFile(ids[i]));
        var kept := Retain(index.accounts, ids[i]);
        index := index.(accounts := kept);
        if index.current == Some(ids[i]) {
          index := index.(current := None);
        }
        Perform(RemoveFile(ids[i]));
      }
      assert ids[..|ids|] == ids;
      if index.current.None? {
        index := index.(current := FirstID(index.accounts));
      }
      StatesAppend(d, Removals(ids), SaveIndex(index));
      Perform(SaveIndex(index));
    }

    method ReorderAccounts(ids: seq<string>)
      modifies this
      ensures trace == old(trace) + States(old(disk), ReorderPlan(old(disk), ids))
      ensures disk == ApplyAll(old(disk), ReorderPlan(old(disk), ids))
    {
      ghost var d := disk;
      var index := disk.index;
      var known: map<string, Summary> := map[];
      for i := 0 to |index.accounts|
        invariant known == ByID(index.accounts[..i])
      {
        assert index.accounts[..i + 1][..i] == index.accounts[..i];
        known := known[index.accounts[i].id := index.accounts[i]];
      }
      assert index.accounts[..|index.accounts|] == index.accounts;
      var reordered := [];
      for i := 0 to |ids|
        invariant reordered == Listed(known, ids[..i])
      {
        assert ids[..i + 1][..i] == ids[..i];
        if ids[i] in known {
          reordered := reordered + [known[ids[i]]];
        }
      }
      assert ids[..|ids|] == ids;
      ghost var front := reordered;
      for i := 0 to |index.accounts|
        invariant reordered == front + Unlisted(index.accounts[..i], ids)
      {
        assert index.accounts[..i + 1][..i] == index.accounts[..i];
        if index.accounts[i].id !in ids {
          reordered := reordered + [index.accounts[i]];
        }
      }
      index := index.(accounts := reordered);
      Perform(SaveIndex(index));
      assert ReorderPlan(d, ids) == [] + [SaveIndex(index)];
      StatesAppend(d, [], SaveIndex(index));
    }

    method ToggleProxyStatus(id: string, enable: bool) returns (ok: bool)
      modifies this
      ensures trace == old(trace) + States(old(disk), ToggleProxyPlan(old(disk), id, !enable))
      ensures disk == ApplyAll(old(disk), ToggleProxyPlan(old(disk), id, !enable))
      ensures ok <==> id in old(disk).files && old(disk).files[id].Readable?
    {
      ghost var d := disk;
      if id !in disk.files || !disk.files[id].Readable? {
        NoWrites(d);
        return false;
      }
      var account := disk.files[id].account.(proxyDisabled := !enable);
      Perform(SaveFile(account));
      StatesAppend(d, [], SaveFile(account));
      assert [] + [SaveFile(account)] == [SaveFile(account)];
      var index := disk.index;
      var k := FindFirst(index.accounts, (s: Summary) => s.id == id);
      if k < |index.accounts| {
        assert index.accounts[k] in index.accounts;
        index := index.(accounts := index.accounts[k := index.accounts[k].(proxyDisabled := !enable)]);
        Perform(SaveIndex(index));
        TwoWrites(d, SaveFile(account), SaveIndex(index));
      }
      return true;
    }
  }

  lemma NoWrites(d: Disk)
    ensures States(d, []) == [] && ApplyAll(d, []) == d
  {}

  lemma TwoWrites(d: Disk, w1: Write, w2: Write)
    ensures States(d, [w1, w2]) == [ApplyWrite(d, w1), ApplyWrite(ApplyWrite(d, w1), w2)]
    ensures ApplyAll(d, [w1, w2]) == ApplyWrite(ApplyWrite(d, w1), w2)
  {
    StatesAppend(d, [], w1);
    StatesAppend(d, [w1], w2);
    assert [w1] + [w2] == [w1, w2] && [] + [w1] == [w1];
  }

  lemma {:induction false} WithoutMembers(accounts: seq<Summary>, id: string)
    ensures forall s :: s in Without(accounts, id) <==> s in accounts && s.id != id
  {
    if accounts != [] {
      WithoutMembers(accounts[1..], id);
      assert accounts == [accounts[0]] + accounts[1..];
    }
  }

  lemma {:induction false} WithoutLength(accounts: seq<Summary>, id: string)
    ensures |Without(accounts, id)| <= |accounts|
    ensures |Without(accounts, id)| == |accounts| <==> id !in IDs(accounts)
  {
    if accounts != [] {
      WithoutLength(accounts[1..], id);
      assert accounts == [accounts[0]] + accounts[1..];
      assert forall s :: s in accounts[1..] ==> s in accounts;
      assert accounts[0] in accounts;
    }
  }
}
