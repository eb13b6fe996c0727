/** Threads sharing the account store: one lock, writes one at a time, crashes anywhere. */
module AccountMachine {
  import opened Wrappers
  import opened AccountIndex
  import opened AccountSafety

  datatype Request =
    | Add(account: Account)
    | Upsert(email: string, name: Option<string>, token: Token, now: int)
    | Delete(id: string)
    | DeleteAll(ids: seq<string>)
    | Reorder(ids: seq<string>)
    | SetCurrent(id: string)
    | ToggleProxy(id: string, off: bool)  // off as well when the account is found forbidden
    | Protect(id: string, models: set<string>)

  /** An upsert that found no such email and has dropped the lock, on its way to add. */
  datatype Waiting = Waiting(email: string, name: Option<string>, token: Token)

  /** The lock holder's remaining writes, and the upserts between their two lock periods. */
  datatype State = State(disk: Disk, locked: bool, pending: seq<Write>, waiting: seq<Waiting>)

  datatype Action =
    | Acquire(request: Request)
    | AcquireAdd(position: nat, id: string, now: int)
    | WriteNext
    | Release
    | Touch(account: Account)  // an account file rewritten outside the lock
    | Crash

  function PlanOf(d: Disk, r: Request): seq<Write> {
    match r
    case Add(a) => AddPlan(d, a)
    case Upsert(email, name, token, now) => UpsertPlan(d, email, name, token, now)
    case Delete(id) => DeletePlan(d, id)
    case DeleteAll(ids) => DeleteAllPlan(d, ids)
    case Reorder(ids) => ReorderPlan(d, ids)
    case SetCurrent(id) => SetCurrentPlan(d, id)
    case ToggleProxy(id, off) => ToggleProxyPlan(d, id, off)
    case Protect(id, models) => ProtectPlan(d, id, models)
  }

  /** An add is refused for a listed email and otherwise needs an id that is not listed. */
  predicate Addable(d: Disk, email: string, id: string) {
    email in Emails(d.index.accounts) || id !in IDs(d.index.accounts)
  }

  /** The requests under which the core invariant is kept; see `ProperIff`. */
  ghost predicate Proper(d: Disk, r: Request) {
    && (r.Add? ==> Addable(d, r.account.email, r.account.id))
    && (r.Reorder? ==> NoKnownRepeats(r.ids, IDs(d.index.accounts)))
    && (r.SetCurrent? ==> r.id in IDs(d.index.accounts))
  }

  /** A batch delete that names a listed account. */
  predicate DeletesListed(d: Disk, r: Request) {
    r.DeleteAll? && exists k :: 0 <= k < |r.ids| && r.ids[k] in IDs(d.index.accounts)
  }

  ghost predicate Enabled(s: State, a: Action) {
    match a
    case Acquire(r) => !s.locked && Proper(s.disk, r)
    case AcquireAdd(k, id, now) => !s.locked && k < |s.waiting| && Addable(s.disk, s.waiting[k].email, id)
    case WriteNext => s.locked && s.pending != []
    case Release => s.locked && s.pending == []
    case Touch(_) => true
    case Crash => true
  }

  function Next(s: State, a: Action): State {
    match a
    case Acquire(r) =>
      var missed := r.Upsert? && EmailIndex(s.disk.index.accounts, r.email) == |s.disk.index.accounts|;
      State(s.disk, true, PlanOf(s.disk, r), if missed then s.waiting + [Waiting(r.email, r.name, r.token)]
          else s.waiting)
    case AcquireAdd(k, id, now) =>
      if k < |s.waiting| then
        var w := s.waiting[k];
        State(s.disk, true, AddPlan(s.disk, NewAccount(id, w.email, w.name, w.token, now)), s.waiting[..k] +
            s.waiting[k + 1..])
      else s
    case WriteNext =>
      if s.pending == [] then s else s.(disk := ApplyWrite(s.disk, s.pending[0]), pending := s.pending[1..])
    case Release => s.(locked := false)
    case Touch(account) => s.(disk := ApplyWrite(s.disk, SaveFile(account)))
    case Crash => State(s.disk, false, [], [])
  }

  ghost predicate Behaves(s: State, actions: seq<Action>) {
    actions == [] ||
    var init, last := actions[..|actions| - 1], actions[|actions| - 1];
    Behaves(s, init) && Enabled(After(s, init), last)
  }

  function After(s: State, actions: seq<Action>): State {
    if actions == [] then s else Next(After(s, actions[..|actions| - 1]), actions[|actions| - 1])
  }

  /** No batch delete of a listed account was started. */
  ghost predicate NoListedBatch(s: State, actions: seq<Action>) {
    forall i :: 0 <= i < |actions| && actions[i].Acquire? ==>
        !DeletesListed(After(s, actions[..i]).disk, actions[i].request)
  }

  ghost predicate Idle(s: State) {
    !s.locked && s.pending == [] && s.waiting == []
  }

  // ---- rewriting files under a plan in progress ----

  /** Same index, no fewer files. */
  predicate Wider(d: Disk, d': Disk) {
    d'.index == d.index && d.files.Keys <= d'.files.Keys && FilesNamed(d'.files)
  }

  lemma {:induction false} WiderSafe(d: Disk, d': Disk, ws: seq<Write>)
    requires Wider(d, d') && AlwaysCore(d, ws)
    ensures AlwaysCore(d', ws)
    ensures AlwaysCovered(d, ws) ==> AlwaysCovered(d', ws)
    decreases |ws|
  {
    hide UniqueIDs, UniqueEmails, CurrentNamed, IDs;
    if ws != [] {
      WiderStep(d, d', ws[0]);
      WiderSafe(ApplyWrite(d, ws[0]), ApplyWrite(d', ws[0]), ws[1..]);
    }
  }

  lemma WiderStep(d: Disk, d': Disk, w: Write)
    requires Wider(d, d')
    ensures Wider(ApplyWrite(d, w), ApplyWrite(d', w))
  {}

  // ---- the machine's invariant ----

  /** A request keeps the core invariant at every write exactly when it is proper. */
  lemma ProperIff(d: Disk, r: Request)
    requires Core(d)
    ensures AlwaysCore(d, PlanOf(d, r)) <==> Proper(d, r)
    ensures Covered(d) && !DeletesListed(d, r) ==> AlwaysCovered(d, PlanOf(d, r))
  {
    hide Core, Covered, AlwaysCore, AlwaysCovered, AddPlan, UpsertPlan, DeletePlan, DeleteAllPlan, ReorderPlan,
        SetCurrentPlan, ToggleProxyPlan, ProtectPlan, NoKnownRepeats;
    match r {
      case Add(a) => AddSafe(d, a);
      case Upsert(email, name, token, now) => UpsertSafe(d, email, name, token, now);
      case Delete(id) => DeleteSafe(d, id);
      case DeleteAll(ids) => DeleteAllSafe(d, ids);
      case Reorder(ids) => ReorderSafe(d, ids);
      case SetCurrent(id) => SetCurrentSafe(d, id);
      case ToggleProxy(id, off) => ToggleProxySafe(d, id, off);
      case Protect(id, models) => ProtectSafe(d, id, models);
    }
  }

  lemma StepSafe(s: State, a: Action)
    requires Enabled(s, a) && AlwaysCore(s.disk, s.pending) && (!s.locked ==> s.pending == [])
    ensures var t := Next(s, a); AlwaysCore(t.disk, t.pending) && (!t.locked ==> t.pending == [])
    ensures var t := Next(s, a);
            AlwaysCovered(s.disk, s.pending) && !(a.Acquire? && DeletesListed(s.disk, a.request)) ==>
                AlwaysCovered(t.disk, t.pending)
  {
    hide Covered, AddPlan, PlanOf, DeletesListed, Proper, UniqueIDs, UniqueEmails, CurrentNamed, EmailIndex;
    match a {
      case Acquire(r) => ProperIff(s.disk, r);
      case AcquireAdd(k, id, now) =>
        var w := s.waiting[k];
        AddSafe(s.disk, NewAccount(id, w.email, w.name, w.token, now));
      case WriteNext =>
      case Release =>
      case Touch(account) =>
        WiderSafe(s.disk, Next(s, a).disk, s.pending);
      case Crash =>
    }
  }

  lemma {:induction false} RunSafe(s: State, actions: seq<Action>)
    requires Idle(s) && Core(s.disk) && Behaves(s, actions)
    ensures var t := After(s, actions); AlwaysCore(t.disk, t.pending) && (!t.locked ==> t.pending == [])
    ensures var t := After(s, actions); Covered(s.disk) && NoListedBatch(s, actions) ==>
            AlwaysCovered(t.disk, t.pending)
  {
    hide Core, Covered, Enabled, Next, DeletesListed;
    if actions != [] {
      var init, last := actions[..|actions| - 1], actions[|actions| - 1];
      RunSafe(s, init);
      StepSafe(After(s, init), last);
      if NoListedBatch(s, actions) {
        forall i | 0 <= i < |init| && init[i].Acquire?
          ensures !DeletesListed(After(s, init[..i]).disk, init[i].request)
        {
          assert init[..i] == actions[..i] && init[i] == actions[i];
        }
        assert actions[..|init|] == init;
      }
    }
  }

  /** Under every interleaving of the lock periods, with files rewritten outside the lock and
      a crash possible between any two writes: ids and emails in the index stay unique and the
      current id is absent exactly when the index is empty and otherwise names an entry. */
  lemma InterleavingsKeepCore(s: State, actions: seq<Action>)
    requires Idle(s) && Core(s.disk) && Behaves(s, actions)
    ensures Core(After(s, actions).disk)
  {
    hide Core;
    RunSafe(s, actions);
  }

  /** As long as no batch delete names a listed account, every index entry has its file in
      every state, and so after any crash. */
  lemma InterleavingsKeepCovered(s: State, actions: seq<Action>)
    requires Idle(s) && Core(s.disk) && Covered(s.disk) && Behaves(s, actions) && NoListedBatch(s, actions)
    ensures Covered(After(s, actions).disk)
  {
    hide Core, Covered, NoListedBatch;
    RunSafe(s, actions);
  }

  /** A batch delete of a listed account always passes through a state in which an entry has
      no file; a crash there leaves it so. */
  lemma BatchDeleteExposes(s: State, ids: seq<string>)
    requires Idle(s) && Core(s.disk) && Covered(s.disk) && ids != [] && ids[0] in IDs(s.disk.index.accounts)
    ensures Behaves(s, [Acquire(DeleteAll(ids)), WriteNext, Crash])
    ensures !Covered(After(s, [Acquire(DeleteAll(ids)), WriteNext, Crash]).disk)
  {
    hide Core, IDs, Removals;
    var a1, a2, a3 := Acquire(DeleteAll(ids)), WriteNext, Crash;
    assert [a1, a2, a3][..2] == [a1, a2] && [a1, a2][..1] == [a1] && [a1][..0] == [];
    assert After(s, [a1]) == Next(s, a1);
    assert After(s, [a1, a2]) == Next(Next(s, a1), a2);
    assert After(s, [a1, a2, a3]) == Next(Next(Next(s, a1), a2), a3);
    assert DeleteAllPlan(s.disk, ids)[0] == RemoveFile(ids[0]);
    assert Behaves(s, []) && Behaves(s, [a1]) && Behaves(s, [a1, a2]);
  }

  // ---- a request on its own ----

  function Writing(n: nat): (actions: seq<Action>)
    ensures |actions| == n
  {
    if n == 0 then [] else Writing(n - 1) + [WriteNext]
  }

  lemma AfterOne(s: State, actions: seq<Action>, a: Action)
    ensures After(s, actions + [a]) == Next(After(s, actions), a)
    ensures Behaves(s, actions + [a]) <==> Behaves(s, actions) && Enabled(After(s, actions), a)
  {
    assert (actions + [a])[..|actions|] == actions;
  }

  lemma NextWrite(s: State)
    requires s.locked && s.pending != []
    ensures Enabled(s, WriteNext)
    ensures Next(s, WriteNext) == s.(disk := ApplyWrite(s.disk, s.pending[0]), pending := s.pending[1..])
  {
    hide ApplyWrite;
  }

  lemma {:induction false} SomeWritten(s: State, n: nat)
    requires s.locked && n <= |s.pending|
    ensures Behaves(s, Writing(n))
    ensures After(s, Writing(n)) == s.(disk := ApplyAll(s.disk, s.pending[..n]), pending := s.pending[n..])
  {
    hide ApplyAll, ApplyWrite, Next, Enabled;
    if n == 0 {
      NoWrites(s.disk);
      assert s.pending[..0] == [] && s.pending[0..] == s.pending;
    } else {
      SomeWritten(s, n - 1);
      AfterOne(s, Writing(n - 1), WriteNext);
      NextWrite(After(s, Writing(n - 1)));
      StatesAppend(s.disk, s.pending[..n - 1], s.pending[n - 1]);
      hide After, Behaves;
      assert s.pending[..n] == s.pending[..n - 1] + [s.pending[n - 1]];
      assert s.pending[n - 1..][1..] == s.pending[n..];
    }
  }

  /** The run of one request by itself: it takes the lock, makes its writes, and leaves the lock. */
  function Solo(d: Disk, r: Request): seq<Action> {
    [Acquire(r)] + Writing(|PlanOf(d, r)|) + [Release]
  }

  /** A proper request that meets no other can run through, and does to the disk exactly what its
      operation does; then the lock is free and nothing is pending. */
  lemma SoloRun(s: State, r: Request)
    requires !s.locked && s.pending == [] && Proper(s.disk, r)
    ensures Behaves(s, Solo(s.disk, r))
    ensures var t := After(s, Solo(s.disk, r));
            && t.disk == ApplyAll(s.disk, PlanOf(s.disk, r)) && !t.locked && t.pending == []
            && s.waiting <= t.waiting
            && (s.waiting == t.waiting <==>
                !(r.Upsert? && forall k :: k in s.disk.index.accounts ==> k.email != r.email))
  {
    hide ApplyAll, PlanOf, Proper;
    var first := [Acquire(r)];
    AfterOne(s, [], Acquire(r));
    assert [] + [Acquire(r)] == first;
    var held := After(s, first);
    var n := |PlanOf(s.disk, r)|;
    SomeWritten(held, n);
    assert held.pending[..n] == held.pending;
    AfterJoin(s, first, Writing(n));
    AfterOne(s, first + Writing(n), Release);
    if r.Upsert? {
      var k := EmailIndex(s.disk.index.accounts, r.email);
      assert k < |s.disk.index.accounts| ==> s.disk.index.accounts[k] in s.disk.index.accounts;
    }
  }

  lemma {:induction false} AfterJoin(s: State, a: seq<Action>, b: seq<Action>)
    ensures After(s, a + b) == After(After(s, a), b)
    ensures Behaves(s, a + b) <==> Behaves(s, a) && Behaves(After(s, a), b)
    decreases |b|
  {
    hide Next, Enabled;
    if b == [] {
      assert a + b == a;
    } else {
      var init, last := b[..|b| - 1], b[|b| - 1];
      AfterJoin(s, a, init);
      assert a + b == a + init + [last];
      AfterOne(s, a + init, last);
      assert b == init + [last];
      AfterOne(After(s, a), init, last);
    }
  }

  /** A crash at any point loses the writes still pending and nothing else: afterwards every proper
      request can run through on the disk as it was left. */
  lemma RecoversFromCrash(s: State, actions: seq<Action>, r: Request)
    requires Behaves(s, actions) && Proper(After(s, actions).disk, r)
    ensures var d := After(s, actions).disk;
            var all := actions + [Crash] + Solo(d, r);
            Behaves(s, all) && After(s, all).disk == ApplyAll(d, PlanOf(d, r))
  {
    hide PlanOf, Proper, ApplyAll, Solo;
    AfterOne(s, actions, Crash);
    var t := After(s, actions + [Crash]);
    SoloRun(t, r);
    AfterJoin(s, actions + [Crash], Solo(t.disk, r));
  }
}
