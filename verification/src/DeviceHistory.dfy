/** Device fingerprints bound to an account and their version history. */
module DeviceHistory {
  import opened Wrappers
  import opened Search

  datatype Profile = Profile(machineID: string, macMachineID: string, devDeviceID: string, sqmID: string)

  datatype Version = Version(id: string, createdAt: int, title: string, profile: Profile, isCurrent: bool)

  datatype Account = Account(deviceProfile: Option<Profile>, history: seq<Version>)

  const BASELINE := "baseline"
  const CURRENT := "current"

  function VersionKey(v: Version): string { v.id }

  function VersionIndex(a: Account, id: string): (k: nat)
    ensures k <= |a.history|
  {
    FirstIndex(a.history, (v: Version) => v.id == id)
  }

  /** The flag of every entry set to whether it is the named one. */
  function Flagged(history: seq<Version>, id: string): (h: seq<Version>)
    ensures |h| == |history|
    ensures forall i :: 0 <= i < |h| ==> h[i] == history[i].(isCurrent := history[i].id == id)
  {
    if history == [] then []
    else [history[0].(isCurrent := history[0].id == id)] + Flagged(history[1..], id)
  }

  function Cleared(history: seq<Version>): (h: seq<Version>)
    ensures |h| == |history|
    ensures forall i :: 0 <= i < |h| ==> h[i] == history[i].(isCurrent := false)
  {
    if history == [] then [] else [history[0].(isCurrent := false)] + Cleared(history[1..])
  }

  function Applied(a: Account, profile: Profile, title: Option<string>, addHistory: bool, id: string,
                   now: int): Account {
    Account(Some(profile),
            if addHistory then Cleared(a.history) + [Version(id, now, title.GetOr("generated"), profile, true)]
                else a.history)
  }

  function RestoreTarget(a: Account, original: Option<Profile>, id: string): Option<Profile> {
    var k := VersionIndex(a, id);
    if id == BASELINE then original
    else if k < |a.history| then Some(a.history[k].profile)
    else if id == CURRENT then a.deviceProfile
    else None
  }

  function Restored(a: Account, original: Option<Profile>, id: string): Account {
    var target := RestoreTarget(a, original, id);
    if target.None? then a else Account(target, Flagged(a.history, id))
  }

  predicate CanDelete(a: Account, id: string) {
    && id != BASELINE
    && !(exists v :: v in a.history && v.id == id && v.isCurrent)
    && exists v :: v in a.history && v.id == id
  }

  function Other(id: string): Version -> bool {
    (v: Version) => v.id != id
  }

  function Deleted(a: Account, id: string): Account {
    if CanDelete(a, id) then a.(history := Filter(a.history, Other(id))) else a
  }

  function Reset(a: Account, original: Option<Profile>): Account {
    if original.None? then a else Account(original, Cleared(a.history))
  }

  class Devices {
    var accounts: map<string, Account>
    var original: Option<Profile>

    /** The first profile ever bound becomes the baseline. */
    method BindDeviceProfileWithProfile(accountID: string, profile: Profile, title: Option<string>, id: string,
                                        now: int)
      returns (r: Result<Profile>)
      modifies this
      ensures r.Success? <==> accountID in old(accounts)
      ensures r.Failure? ==> accounts == old(accounts) && original == old(original)
      ensures r.Success? ==>
                && r.value == profile
                && original == (if old(original).None? then Some(profile) else old(original))
                && accounts ==
                   old(accounts)[accountID := Applied(old(accounts)[accountID], profile, title, true, id, now)]
    {
      if accountID !in accounts {
        return Failure("account not found");
      }
      if original.None? {
        original := Some(profile);
      }
      var account := ApplyProfileToAccount(accounts[accountID], profile, title, true, id, now);
      accounts := accounts[accountID := account];
      return Success(profile);
    }

    static method ApplyProfileToAccount(account: Account, profile: Profile, title: Option<string>, addHistory: bool,
                                        id: string, now: int)
      returns (a: Account)
      ensures a == Applied(account, profile, title, addHistory, id, now)
    {
      a := account.(deviceProfile := Some(profile));
      if addHistory {
        var history := a.history;
        for i := 0 to |history|
          invariant |history| == |a.history|
          invariant forall j :: 0 <= j < |history| ==>
                      history[j] == if j < i then a.history[j].(isCurrent := false) else a.history[j]
        {
          history := history[i := history[i].(isCurrent := false)];
        }
        assert history == Cleared(a.history);
        var name := if title.Some? then title.value else "generated";
        a := a.(history := history + [Version(id, now, name, profile, true)]);
      }
    }

    method RestoreDeviceVersion(accountID: string, id: string) returns (r: Result<Profile>)
      modifies this
      ensures original == old(original)
      ensures r.Success? <==> accountID in old(accounts) && RestoreTarget(old(accounts)[accountID], original, id).Some?
      ensures r.Failure? ==> accounts == old(accounts)
      ensures r.Success? ==>
                && Some(r.value) == RestoreTarget(old(accounts)[accountID], original, id)
                && accounts == old(accounts)[accountID := Restored(old(accounts)[accountID], original, id)]
    {
      if accountID !in accounts {
        return Failure("account not found");
      }
      var account := accounts[accountID];
      var target: Profile;
      var k := FindFirst(account.history, (v: Version) => v.id == id);
      if id == BASELINE {
        if original.None? {
          return Failure("Global original profile not found");
        }
        target := original.value;
      } else if k < |account.history| {
        target := account.history[k].profile;
      } else if id == CURRENT {
        if account.deviceProfile.None? {
          return Failure("No currently bound profile");
        }
        target := account.deviceProfile.value;
      } else {
        return Failure("Device profile version not found");
      }
      var history := account.history;
      for i := 0 to |history|
        invariant |history| == |account.history|
        invariant forall j :: 0 <= j < |history| ==>
                    history[j] == if j < i then account.history[j].(isCurrent := account.history[j].id == id)
                        else account.history[j]
      {
        history := history[i := history[i].(isCurrent := history[i].id == id)];
      }
      assert history == Flagged(account.history, id);
      accounts := accounts[accountID := Account(Some(target), history)];
      return Success(target);
    }

    method DeleteDeviceVersion(accountID: string, id: string) returns (r: Result<()>)
      modifies this
      ensures original == old(original)
      ensures r.Success? <==> accountID in old(accounts) && CanDelete(old(accounts)[accountID], id)
      ensures r.Failure? ==> accounts == old(accounts)
      ensures r.Success? ==> accounts == old(accounts)[accountID := Deleted(old(accounts)[accountID], id)]
    {
      if id == BASELINE {
        return Failure("Original profile cannot be deleted");
      }
      if accountID !in accounts {
        return Failure("account not found");
      }
      var account := accounts[accountID];
      var k := FindFirst(account.history, (v: Version) => v.id == id && v.isCurrent);
      if k < |account.history| {
        assert account.history[k] in account.history;
        return Failure("Currently bound profile cannot be deleted");
      }
      var history := Filter(account.history, Other(id));
      ShorterIff(account.history, id);
      if |history| == |account.history| {
        return Failure("Historical device profile not found");
      }
      accounts := accounts[accountID := account.(history := history)];
      return Success(());
    }

    /** Applied to the account that is current, when there is one. */
    method RestoreOriginalDevice(current: Option<string>) returns (r: Result<()>)
      modifies this
      ensures original == old(original)
      ensures r.Success? <==> current.Some? && current.value in old(accounts) && original.Some?
      ensures r.Failure? ==> accounts == old(accounts)
      ensures r.Success? ==> accounts == old(accounts)[current.value := Reset(old(accounts)[current.value], original)]
    {
      if current.Some? && current.value in accounts && original.Some? {
        var account := accounts[current.value];
        var history := account.history;
        for i := 0 to |history|
          invariant |history| == |account.history|
          invariant forall j :: 0 <= j < |history| ==>
                      history[j] == if j < i then account.history[j].(isCurrent := false) else account.history[j]
        {
          history := history[i := history[i].(isCurrent := false)];
        }
        assert history == Cleared(account.history);
        accounts := accounts[current.value := Account(original, history)];
        return Success(());
      }
      return Failure("Original profile not found, cannot restore");
    }
  }

  lemma {:induction false} ShorterIff(history: seq<Version>, id: string)
    ensures |Filter(history, Other(id))| <= |history|
    ensures |Filter(history, Other(id))| < |history| <==> exists v :: v in history && v.id == id
  {
    if history != [] {
      var init, last := history[..|history| - 1], history[|history| - 1];
      ShorterIff(init, id);
      assert history == init + [last];
      assert forall v :: v in history <==> v in init || v == last;
    }
  }

  // ---- what the operations do ----

  /** Binding leaves the earlier entries as they were, unmarked, and adds a marked one. */
  lemma BindEffect(a: Account, profile: Profile, title: Option<string>, id: string, now: int)
    ensures var b, n := Applied(a, profile, title, true, id, now), |a.history|;
            && b.deviceProfile == Some(profile) && |b.history| == n + 1
            && (forall i :: 0 <= i < n ==> b.history[i] == a.history[i].(isCurrent := false))
            && b.history[n].id == id && b.history[n].createdAt == now && b.history[n].profile == profile
            && b.history[n].isCurrent
            && b.history[n].title == if title.Some? then title.value else "generated"
  {}

  predicate FirstNamed(a: Account, id: string, k: int) {
    0 <= k < |a.history| && a.history[k].id == id && forall j :: 0 <= j < k ==> a.history[j].id != id
  }

  /** What a restore binds: the baseline under its name; else the profile of the first entry of the
      id; else, under the name "current", the profile bound already; else nothing. */
  lemma RestoreEffect(a: Account, original: Option<Profile>, id: string)
    ensures var p, b := RestoreTarget(a, original, id), Restored(a, original, id);
            && (id == "baseline" ==> p == original)
            && (id != "baseline" ==> forall k :: FirstNamed(a, id, k) ==> p == Some(a.history[k].profile))
            && (id != "baseline" && (forall v :: v in a.history ==> v.id != id) ==>
                 p == if id == "current" then a.deviceProfile else None)
            && (p.None? ==> b == a)
            && (p.Some? ==>
                 && b.deviceProfile == p && |b.history| == |a.history|
                 && forall i :: 0 <= i < |a.history| ==>
                    b.history[i] == a.history[i].(isCurrent := a.history[i].id == id))
  {
    var k := VersionIndex(a, id);
    assert k < |a.history| ==> a.history[k] in a.history;
  }

  /** What a deletion removes: the entries of an id that names some entry, is not the baseline's, and
      names no marked one. */
  lemma DeleteEffect(a: Account, id: string)
    ensures CanDelete(a, id) <==>
            && id != "baseline" && (exists v :: v in a.history && v.id == id)
            && forall v :: v in a.history && v.id == id ==> !v.isCurrent
    ensures var b := Deleted(a, id);
            && b.deviceProfile == a.deviceProfile
            && (forall v :: v in b.history <==> v in a.history && (CanDelete(a, id) ==> v.id != id))
            && (!CanDelete(a, id) ==> b == a)
  {
    FilterMembers(a.history, Other(id));
  }

  /** A reset binds the baseline, where there is one, and unmarks every entry. */
  lemma ResetEffect(a: Account, original: Option<Profile>)
    ensures var b := Reset(a, original);
            && (original.None? ==> b == a)
            && (original.Some? ==>
                 && b.deviceProfile == original && |b.history| == |a.history|
                 && forall i :: 0 <= i < |a.history| ==> b.history[i] == a.history[i].(isCurrent := false))
  {}

  // ---- the invariant ----

  /** Ids are distinct and not reserved; at most one entry is current, and it is the bound one. */
  ghost predicate Sound(a: Account) {
    && Distinct(a.history, VersionKey)
    && (forall v :: v in a.history ==> v.id != BASELINE)
    && (forall i, j :: 0 <= i < j < |a.history| ==> !(a.history[i].isCurrent && a.history[j].isCurrent))
    && (forall v :: v in a.history && v.isCurrent ==> a.deviceProfile == Some(v.profile))
  }

  predicate NewID(a: Account, id: string) {
    id != BASELINE && forall v :: v in a.history ==> v.id != id
  }

  /** Binding keeps the invariant with its history entry; without one, exactly when no other
      profile is marked current. */
  lemma AppliedSound(a: Account, profile: Profile, title: Option<string>, addHistory: bool, id: string, now: int)
    requires Sound(a) && NewID(a, id)
    ensures Sound(Applied(a, profile, title, addHistory, id, now)) <==>
            addHistory || forall v :: v in a.history && v.isCurrent ==> v.profile == profile
  {
    var d := Applied(a, profile, title, addHistory, id, now);
    if addHistory {
      forall i, j | 0 <= i < j < |d.history|
        ensures VersionKey(d.history[i]) != VersionKey(d.history[j])
      {
        assert VersionKey(a.history[i]) == VersionKey(d.history[i]) && a.history[i] in a.history;
        assert j < |a.history| ==> VersionKey(a.history[j]) == VersionKey(d.history[j]);
      }
      forall v | v in d.history
        ensures v.id != BASELINE && (v.isCurrent ==> v.profile == profile)
      {
        var i :| 0 <= i < |d.history| && d.history[i] == v;
        assert i < |a.history| ==> a.history[i] in a.history;
      }
    }
  }

  lemma OnlyVersion(a: Account, i: nat)
    requires Distinct(a.history, VersionKey) && i < |a.history|
    ensures VersionIndex(a, a.history[i].id) == i
  {
    var k := VersionIndex(a, a.history[i].id);
    assert VersionKey(a.history[k]) == VersionKey(a.history[i]);
  }

  lemma FlaggedSound(a: Account, profile: Profile, id: string)
    requires Sound(a)
    requires forall v :: v in a.history && v.id == id ==> v.profile == profile
    ensures Sound(Account(Some(profile), Flagged(a.history, id)))
  {
    var h := Flagged(a.history, id);
    forall i, j | 0 <= i < j < |h|
      ensures VersionKey(h[i]) != VersionKey(h[j])
    {
      assert VersionKey(a.history[i]) != VersionKey(a.history[j]);
    }
    forall v | v in h
      ensures v.id != BASELINE && (v.isCurrent ==> v.profile == profile)
    {
      var i :| 0 <= i < |h| && h[i] == v;
      assert a.history[i] in a.history;
    }
  }

  lemma RestoredSound(a: Account, original: Option<Profile>, id: string)
    requires Sound(a)
    ensures Sound(Restored(a, original, id))
  {
    var target := RestoreTarget(a, original, id);
    if target.Some? {
      forall v | v in a.history && v.id == id
        ensures v.profile == target.value
      {
        var i :| 0 <= i < |a.history| && a.history[i] == v;
        OnlyVersion(a, i);
      }
      FlaggedSound(a, target.value, id);
    }
  }

  lemma DeletedSound(a: Account, id: string)
    requires Sound(a)
    ensures Sound(Deleted(a, id))
  {
    FilterMembers(a.history, Other(id));
    DistinctFilter(a.history, VersionKey, Other(id));
    var h := Filter(a.history, Other(id));
    forall i, j | 0 <= i < j < |h|
      ensures !(h[i].isCurrent && h[j].isCurrent)
    {
      assert VersionKey(h[i]) != VersionKey(h[j]);
      assert h[i] in a.history && h[j] in a.history;
    }
  }

  lemma ResetSound(a: Account, original: Option<Profile>)
    requires Sound(a)
    ensures Sound(Reset(a, original))
  {
    var d := Reset(a, original);
    forall i, j | original.Some? && 0 <= i < j < |d.history|
      ensures VersionKey(d.history[i]) != VersionKey(d.history[j])
    {
      assert VersionKey(a.history[i]) != VersionKey(a.history[j]);
    }
    forall v | v in d.history
      ensures v.id != BASELINE
    {
      var i :| 0 <= i < |d.history| && d.history[i] == v;
      assert a.history[i] in a.history;
    }
  }

  // ---- runs ----

  datatype Op =
    | Bind(profile: Profile, title: Option<string>, id: string)
    | Restore(id: string)
    | Delete(id: string)
    | ResetToOriginal

  /** One operation on an account, the baseline as it then is. */
  datatype Event = Event(op: Op, original: Option<Profile>, now: int)

  function Step(a: Account, e: Event): Account {
    match e.op
    case Bind(p, title, id) => Applied(a, p, title, true, id, e.now)
    case Restore(id) => Restored(a, e.original, id)
    case Delete(id) => Deleted(a, id)
    case ResetToOriginal => Reset(a, e.original)
  }

  function Run(a: Account, events: seq<Event>): Account {
    if events == [] then a else Step(Run(a, events[..|events| - 1]), events[|events| - 1])
  }

  /** Every binding brings an identifier that is new to the account. */
  ghost predicate FreshIDs(a: Account, events: seq<Event>) {
    forall n :: 0 <= n < |events| && events[n].op.Bind? ==> NewID(Run(a, events[..n]), events[n].op.id)
  }

  lemma FreshInit(a: Account, events: seq<Event>)
    requires FreshIDs(a, events) && events != []
    ensures FreshIDs(a, events[..|events| - 1])
    ensures events[|events| - 1].op.Bind? ==> NewID(Run(a, events[..|events| - 1]), events[|events| - 1].op.id)
  {
    var init := events[..|events| - 1];
    forall n | 0 <= n < |init| && init[n].op.Bind?
      ensures NewID(Run(a, init[..n]), init[n].op.id)
    {
      assert init[..n] == events[..n];
    }
  }

  /** Over every run at most one entry is current, and a current entry is the bound profile. */
  lemma {:induction false} RunSound(a: Account, events: seq<Event>)
    requires Sound(a) && FreshIDs(a, events)
    ensures Sound(Run(a, events))
  {
    if events != [] {
      var init, e := events[..|events| - 1], events[|events| - 1];
      FreshInit(a, events);
      RunSound(a, init);
      var d := Run(a, init);
      hide Sound, NewID, FreshIDs, Restored, Deleted, Reset;
      match e.op
      case Bind(p, title, id) => AppliedSound(d, p, title, true, id, e.now);
      case Restore(id) => RestoredSound(d, e.original, id);
      case Delete(id) => DeletedSound(d, id);
      case ResetToOriginal => ResetSound(d, e.original);
    }
  }

  /** The profile recorded under an id. */
  ghost predicate Records(a: Account, id: string, p: Profile) {
    exists v :: v in a.history && v.id == id && v.profile == p
  }

  lemma StepKeepsRecord(a: Account, e: Event, id: string, p: Profile)
    requires Records(a, id, p) && e.op != Delete(id)
    ensures Records(Step(a, e), id, p)
  {
    var v :| v in a.history && v.id == id && v.profile == p;
    var i :| 0 <= i < |a.history| && a.history[i] == v;
    var d := Step(a, e);
    if e.op.Delete? {
      FilterMembers(a.history, Other(e.op.id));
      assert v in d.history;
    } else {
      assert d.history[i].id == id && d.history[i].profile == p && d.history[i] in d.history;
    }
  }

  lemma {:induction false} RunKeepsRecord(a: Account, events: seq<Event>, id: string, p: Profile)
    requires Records(a, id, p) && forall e :: e in events ==> e.op != Delete(id)
    ensures Records(Run(a, events), id, p)
  {
    hide Records, Step;
    if events != [] {
      RunKeepsRecord(a, events[..|events| - 1], id, p);
      StepKeepsRecord(Run(a, events[..|events| - 1]), events[|events| - 1], id, p);
    }
  }

  lemma RestoreRecorded(a: Account, original: Option<Profile>, id: string, p: Profile)
    requires Sound(a) && Records(a, id, p)
    ensures Restored(a, original, id).deviceProfile == Some(p)
    ensures forall v :: v in Restored(a, original, id).history ==> (v.isCurrent <==> v.id == id)
  {
    var v :| v in a.history && v.id == id && v.profile == p;
    var i :| 0 <= i < |a.history| && a.history[i] == v;
    OnlyVersion(a, i);
    var d := Restored(a, original, id);
    assert d.history == Flagged(a.history, id);
    hide Restored;
  }

  /** What was bound comes back: a profile bound under an id is bound again by restoring that id,
      after any operations that do not delete it, and is then the one current entry. */
  lemma BindThenRestore(a: Account, p: Profile, title: Option<string>, id: string, now: int, events: seq<Event>,
                        original: Option<Profile>)
    requires Sound(a) && NewID(a, id)
    requires var b := Applied(a, p, title, true, id, now); FreshIDs(b, events)
    requires forall e :: e in events ==> e.op != Delete(id)
    ensures var d := Restored(Run(Applied(a, p, title, true, id, now), events), original, id);
            && d.deviceProfile == Some(p)
            && (forall v :: v in d.history ==> (v.isCurrent <==> v.id == id))
  {
    var b := Applied(a, p, title, true, id, now);
    AppliedSound(a, p, title, true, id, now);
    assert b.history[|a.history|] in b.history;
    assert Records(b, id, p);
    RunSound(b, events);
    RunKeepsRecord(b, events, id, p);
    RestoreRecorded(Run(b, events), original, id, p);
  }

  // ---- is the bound entry protected? ----

  /** Some entry is marked, and so protected from deletion. */
  ghost predicate Marked(a: Account) {
    exists v :: v in a.history && v.isCurrent
  }

  ghost predicate Named(a: Account, id: string) {
    exists v :: v in a.history && v.id == id
  }

  /** A marked entry, and no other, cannot be deleted. */
  lemma DeletableIff(a: Account, v: Version)
    requires Sound(a) && v in a.history
    ensures CanDelete(a, v.id) <==> !v.isCurrent
  {
    var i :| 0 <= i < |a.history| && a.history[i] == v;
    forall w | w in a.history && w.id == v.id
      ensures w == v
    {
      var j :| 0 <= j < |a.history| && a.history[j] == w;
      OnlyVersion(a, i);
      OnlyVersion(a, j);
    }
  }

  /** A binding, or a restore that succeeds and names an entry. */
  ghost predicate Marks(a: Account, e: Event) {
    e.op.Bind? || (e.op.Restore? && RestoreTarget(a, e.original, e.op.id).Some? && Named(a, e.op.id))
  }

  /** A reset with a baseline, or a restore that succeeds and names no entry: of the baseline, or
      of "current". */
  ghost predicate Unmarks(a: Account, e: Event) {
    || (e.op.ResetToOriginal? && e.original.Some?)
    || (e.op.Restore? && RestoreTarget(a, e.original, e.op.id).Some? && !Named(a, e.op.id))
  }

  lemma FlaggedMarked(history: seq<Version>, id: string)
    ensures (exists v :: v in Flagged(history, id) && v.isCurrent) <==> exists v :: v in history && v.id == id
  {
    var h := Flagged(history, id);
    if v :| v in h && v.isCurrent {
      var i :| 0 <= i < |h| && h[i] == v;
      assert history[i] in history;
    }
    if v :| v in history && v.id == id {
      var i :| 0 <= i < |history| && history[i] == v;
      assert h[i] in h;
    }
  }

  lemma ClearedUnmarked(history: seq<Version>)
    ensures forall v :: v in Cleared(history) ==> !v.isCurrent
  {
    forall v | v in Cleared(history)
      ensures !v.isCurrent
    {
      var i :| 0 <= i < |history| && Cleared(history)[i] == v;
    }
  }

  lemma DeletedKeepsMark(a: Account, id: string)
    ensures Marked(Deleted(a, id)) <==> Marked(a)
  {
    FilterMembers(a.history, Other(id));
    if v :| v in a.history && v.isCurrent {
      assert CanDelete(a, id) ==> v in Deleted(a, id).history;
    }
  }

  /** What a step does to the mark, for every account and step. */
  lemma MarkStep(a: Account, e: Event)
    ensures Marked(Step(a, e)) <==> Marks(a, e) || (Marked(a) && !Unmarks(a, e))
  {
    match e.op
    case Bind(p, title, id) =>
      var d := Step(a, e);
      assert d.history[|a.history|].isCurrent && d.history[|a.history|] in d.history;
    case Restore(id) => FlaggedMarked(a.history, id);
    case Delete(id) => DeletedKeepsMark(a, id);
    case ResetToOriginal => ClearedUnmarked(a.history);
  }

  /** While an entry is marked a step leaves some entry marked exactly when it is neither a reset
      with a baseline nor a successful restore of an id that is not in the history. */
  lemma MarkKeptIff(a: Account, e: Event)
    requires Marked(a)
    ensures Marked(Step(a, e)) <==> !Unmarks(a, e)
  {
    hide Marked, Step, Named, RestoreTarget;
    MarkStep(a, e);
  }

  /** No step from `n` on unmarks. */
  ghost predicate KeptFrom(a: Account, events: seq<Event>, n: nat) {
    forall i :: n <= i < |events| ==> !Unmarks(Run(a, events[..i]), events[i])
  }

  ghost predicate MarkedAt(a: Account, events: seq<Event>, n: nat) {
    n < |events| && Marks(Run(a, events[..n]), events[n]) && KeptFrom(a, events, n + 1)
  }

  lemma KeptFromStep(a: Account, events: seq<Event>, n: nat)
    requires events != [] && n < |events|
    ensures var m := |events| - 1;
            KeptFrom(a, events, n) <==> KeptFrom(a, events[..m], n) && !Unmarks(Run(a, events[..m]), events[m])
  {
    hide Run, Unmarks;
    var m := |events| - 1;
    var init := events[..m];
    forall i | 0 <= i < m
      ensures init[..i] == events[..i] && init[i] == events[i]
    {}
    if KeptFrom(a, events, n) {
      forall i | n <= i < m
        ensures !Unmarks(Run(a, init[..i]), init[i])
      {
        assert !Unmarks(Run(a, events[..i]), events[i]);
      }
    }
    if KeptFrom(a, init, n) {
      forall i | n <= i < m
        ensures !Unmarks(Run(a, events[..i]), events[i])
      {
        assert !Unmarks(Run(a, init[..i]), init[i]);
      }
    }
  }

  /** The mark at the end comes from the last step or from one before that kept it. */
  lemma MarkedAtStep(a: Account, events: seq<Event>)
    requires events != []
    ensures var m := |events| - 1;
            (exists n: nat :: MarkedAt(a, events, n)) <==>
            || Marks(Run(a, events[..m]), events[m])
            || ((exists n: nat :: MarkedAt(a, events[..m], n)) && !Unmarks(Run(a, events[..m]), events[m]))
  {
    hide Run, Unmarks, Marks;
    var m := |events| - 1;
    var init := events[..m];
    if n: nat :| MarkedAt(a, events, n) && n < m {
      KeptFromStep(a, events, n + 1);
      assert init[..n] == events[..n] && init[n] == events[n];
      assert MarkedAt(a, init, n);
    }
    if n: nat :| MarkedAt(a, init, n) {
      KeptFromStep(a, events, n + 1);
      assert init[..n] == events[..n] && init[n] == events[n];
      assert !Unmarks(Run(a, init), events[m]) ==> MarkedAt(a, events, n);
    }
    assert Marks(Run(a, init), events[m]) ==> MarkedAt(a, events, m);
  }

  /** Over every run some entry is marked at the end exactly when one was at the start, or some
      step marked one, and no later step unmarked it. */
  lemma {:induction false} RunMarkedIff(a: Account, events: seq<Event>)
    ensures Marked(Run(a, events)) <==>
            (Marked(a) && KeptFrom(a, events, 0)) || exists n: nat :: MarkedAt(a, events, n)
  {
    hide Marked, Marks, Unmarks, Step;
    if events != [] {
      var m := |events| - 1;
      RunMarkedIff(a, events[..m]);
      MarkStep(Run(a, events[..m]), events[m]);
      KeptFromStep(a, events, 0);
      MarkedAtStep(a, events);
      MarksExclude(Run(a, events[..m]), events[m]);
    }
  }

  lemma MarksExclude(a: Account, e: Event)
    ensures !(Marks(a, e) && Unmarks(a, e))
  {
    hide RestoreTarget, Named;
  }

  /** The first binding of a profile, then a restore of the baseline, which is that profile: it is
      still bound, and its one entry can be deleted. The same after a reset. */
  lemma BaselineUnprotects(p: Profile, title: Option<string>, id: string, now: int)
    requires id != BASELINE
    ensures var a := Applied(Account(None, []), p, title, true, id, now);
            && !CanDelete(a, id)
            && var b, c := Restored(a, Some(p), BASELINE), Reset(a, Some(p));
               && b.deviceProfile == Some(p) && CanDelete(b, id)
               && c.deviceProfile == Some(p) && CanDelete(c, id)
  {
    var a := Applied(Account(None, []), p, title, true, id, now);
    assert a.history == [Version(id, now, title.GetOr("generated"), p, true)];
    assert a.history[0] in a.history;
    var b, c := Restored(a, Some(p), BASELINE), Reset(a, Some(p));
    assert b.history == [a.history[0].(isCurrent := false)] && b.history[0] in b.history;
    assert c.history == [a.history[0].(isCurrent := false)] && c.history[0] in c.history;
  }

  /** Restoring "current" keeps the bound profile but unmarks every entry, so the entry that
      recorded it can then be deleted. */
  lemma RestoreCurrentUnprotects(a: Account, original: Option<Profile>, id: string)
    requires Sound(a) && (forall v :: v in a.history ==> v.id != CURRENT)
    requires a.deviceProfile.Some? && exists v :: v in a.history && v.id == id
    ensures var d := Restored(a, original, CURRENT);
            d.deviceProfile == a.deviceProfile && CanDelete(d, id)
  {
    var d := Restored(a, original, CURRENT);
    assert forall j :: 0 <= j < |a.history| ==> a.history[j].id != CURRENT;
    var v :| v in a.history && v.id == id;
    var i :| 0 <= i < |a.history| && a.history[i] == v;
    assert d.history[i] in d.history && d.history[i].id == id;
    forall w | w in d.history
      ensures !w.isCurrent
    {
      var j :| 0 <= j < |d.history| && d.history[j] == w;
      assert a.history[j] in a.history;
    }
  }
}
