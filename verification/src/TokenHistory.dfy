/** What the rows of the token database say: about the request that made them, and about the log. */
module TokenHistory {
  import opened Wrappers
  import opened Search
  import opened Curfew
  import opened TokenDb
  import opened TokenLimits

  // ---- each operation, column by column ----

  /** When a token of the kind made or renewed at `now` runs out; `custom` is the moment asked for. */
  function RunsOut(kind: string, now: int, custom: Option<int>): Option<int> {
    match kind
    case "day" => Some(now + 86_400)
    case "week" => Some(now + 604_800)
    case "month" => Some(now + 2_592_000)
    case "custom" => custom
    case _ => None
  }

  /** A creation succeeds exactly when neither the id nor the token string is taken, and then adds
      one enabled, unused row with what was asked for. */
  lemma CreateEffect(t: Tables, r: NewToken, now: int)
    ensures CanCreate(t, r) <==> forall k :: k in t.tokens ==> k.id != r.id && k.token != r.token
    ensures var d := Created(t, r, now);
            && d.bindings == t.bindings && d.logs == t.logs
            && if CanCreate(t, r) then
                 && |d.tokens| == |t.tokens| + 1 && d.tokens[..|t.tokens|] == t.tokens
                 && var k := d.tokens[|t.tokens|];
                    && k.id == r.id && k.token == r.token && k.username == r.username && k.description == r.description
                    && k.enabled && k.expiresType == r.expiresType
                    && k.expiresAt == RunsOut(r.expiresType, now, r.customExpiresAt)
                    && k.maxIPs == r.maxIPs && k.curfewStart == r.curfewStart && k.curfewEnd == r.curfewEnd
                    && k.createdAt == k.updatedAt == now && k.lastUsedAt == None
                    && k.totalRequests == k.totalTokensUsed == 0
               else d.tokens == t.tokens
  {
    var i, j := TokenIndex(t, r.id), ValueIndex(t, r.token);
    assert i < |t.tokens| ==> t.tokens[i] in t.tokens;
    assert j < |t.tokens| ==> t.tokens[j] in t.tokens;
  }

  /** Two tables that differ in one token row at most. */
  ghost predicate OneToken(t: Tables, d: Tables, id: string, i: nat) {
    && d.bindings == t.bindings && d.logs == t.logs && |d.tokens| == |t.tokens|
    && (forall j :: 0 <= j < |t.tokens| && j != i ==> d.tokens[j] == t.tokens[j])
    && (i < |t.tokens| ==> t.tokens[i].id == id)
    && (forall j :: 0 <= j < |t.tokens| && j < i ==> t.tokens[j].id != id)
  }

  /** An update writes the columns it names and the time, and keeps the others. */
  lemma UpdateEffect(t: Tables, id: string, p: Patch, now: int) returns (i: nat)
    ensures var d := Updated(t, id, p, now);
            && OneToken(t, d, id, i)
            && (i < |t.tokens| ==>
                 var k, k' := t.tokens[i], d.tokens[i];
                 && k'.username == (if p.username.Some? then p.username.value else k.username)
                 && k'.description == (if p.description.Some? then p.description else k.description)
                 && k'.enabled == (if p.enabled.Some? then p.enabled.value else k.enabled)
                 && k'.maxIPs == (if p.maxIPs.Some? then p.maxIPs.value else k.maxIPs)
                 && k'.curfewStart == (if p.curfewStart.Some? then p.curfewStart.value else k.curfewStart)
                 && k'.curfewEnd == (if p.curfewEnd.Some? then p.curfewEnd.value else k.curfewEnd)
                 && k'.updatedAt == now && k'.id == k.id && k'.token == k.token
                 && k'.expiresType == k.expiresType && k'.expiresAt == k.expiresAt && k'.createdAt == k.createdAt
                 && k'.lastUsedAt == k.lastUsedAt
                 && k'.totalRequests == k.totalRequests && k'.totalTokensUsed == k.totalTokensUsed)
  {
    i := TokenIndex(t, id);
  }

  /** A renewal restarts the lifetime, enables the token, and keeps everything else. */
  lemma RenewEffect(t: Tables, id: string, kind: string, now: int) returns (i: nat)
    ensures var d := Renewed(t, id, kind, now);
            && OneToken(t, d, id, i)
            && (i < |t.tokens| ==>
                 d.tokens[i] == t.tokens[i].(expiresType := kind, enabled := true, updatedAt := now,
                                             expiresAt := RunsOut(kind, now, None)))
  {
    i := TokenIndex(t, id);
  }

  /** A deletion removes the rows of the token, in all three tables, and no others. */
  lemma DeleteEffect(t: Tables, id: string)
    ensures var d := Deleted(t, id);
            && (forall k :: k in d.tokens <==> k in t.tokens && k.id != id)
            && (forall b :: b in d.bindings <==> b in t.bindings && b.tokenID != id)
            && (forall l :: l in d.logs <==> l in t.logs && l.tokenID != id)
  {
    FilterMembers(t.tokens, (k: UserToken) => k.id != id);
    FilterMembers(t.bindings, (b: Binding) => b.tokenID != id);
    FilterMembers(t.logs, (l: UsageLog) => l.tokenID != id);
  }

  /** A recorded use counts on the token, is seen on the binding of its address, which it makes if
      there is none, and is logged as it was; nothing else changes. */
  lemma RecordEffect(t: Tables, u: Use, now: int) returns (i: nat, b: nat)
    requires CanRecord(t, u)
    ensures i < |t.tokens| && t.tokens[i].id == u.tokenID
    ensures var d := Recorded(t, u, now);
            && |d.tokens| == |t.tokens| && (forall j :: 0 <= j < |t.tokens| && j != i ==> d.tokens[j] == t.tokens[j])
            && d.tokens[i] == t.tokens[i].(lastUsedAt := Some(now), totalRequests := t.tokens[i].totalRequests + 1,
                                           totalTokensUsed := d.tokens[i].totalTokensUsed)
            && WrappedSum(u.inputTokens, u.outputTokens, d.tokens[i].totalTokensUsed - t.tokens[i].totalTokensUsed)
            && d.logs == t.logs + [UsageLog(u.logID, u.tokenID, u.ip, u.model, u.inputTokens, u.outputTokens, now,
                                            u.status)]
            && (if Bound(t, u.tokenID, u.ip) then
                  && b < |t.bindings| == |d.bindings|
                  && t.bindings[b].tokenID == u.tokenID && t.bindings[b].ip == u.ip
                  && (forall j :: 0 <= j < |t.bindings| && j != b ==> d.bindings[j] == t.bindings[j])
                  && d.bindings[b] == t.bindings[b].(
                       lastSeenAt := now, requestCount := t.bindings[b].requestCount + 1,
                       userAgent := if u.userAgent.Some? then u.userAgent else t.bindings[b].userAgent)
                else
                  d.bindings == t.bindings + [Binding(u.bindingID, u.tokenID, u.ip, now, now, 1, u.userAgent)])
  {
    i, b := TokenIndex(t, u.tokenID), BindingIndex(t, u.tokenID, u.ip);
    WrapsIff(u.inputTokens, u.outputTokens);
  }

  /** A use is recorded exactly when its token exists, the log row is new, and so is the binding row
      unless the address is bound already; otherwise nothing changes. */
  lemma RecordsIff(t: Tables, u: Use, now: int)
    ensures CanRecord(t, u) <==>
            && (exists k :: k in t.tokens && k.id == u.tokenID)
            && (forall l :: l in t.logs ==> l.id != u.logID)
            && ((exists b :: b in t.bindings && b.tokenID == u.tokenID && b.ip == u.ip) ||
               forall b :: b in t.bindings ==> b.id != u.bindingID)
    ensures !CanRecord(t, u) ==> Recorded(t, u, now) == t
  {
    TokenListed(t, u.tokenID);
    PairListed(t, u.tokenID, u.ip);
    hide TokenIndex, BindingIndex, Bound, HasToken;
    var i, j := FirstIndex(t.bindings, (b: Binding) => b.id == u.bindingID),
      FirstIndex(t.logs, (l: UsageLog) => l.id == u.logID);
    assert i < |t.bindings| ==> t.bindings[i] in t.bindings;
    assert j < |t.logs| ==> t.logs[j] in t.logs;
  }

  /** `n` is the sum of the two counts in 32-bit two's complement. */
  predicate WrappedSum(a: int, b: int, n: int) {
    -0x8000_0000 <= n <= 0x7FFF_FFFF && (a + b - n) % 0x1_0000_0000 == 0
  }

  lemma WrapsIff(a: Int32, b: Int32)
    ensures WrappedSum(a, b, Add32(a, b))
  {
    var m := a + b + 0x8000_0000;
    assert a + b - Add32(a, b) == m - m % 0x1_0000_0000;
  }

  // ---- why a token is refused ----

  /** In every reachable database, for each refusal, when it is given: an unknown token; a known one
      past its expiry; one whose log already shows as many addresses as its limit, and not this one,
      reported with both numbers; and last the curfew. */
  lemma RefusedIff(events: seq<Event>, token: string, ip: string, now: int)
    ensures var t := Run(EMPTY, events);
            var v := VerdictFor(t, token, ip, now);
            && (v == Refused(Unknown) <==> forall k :: k in t.tokens ==> k.token != token)
            && forall k :: k in t.tokens && k.token == token ==>
                 var late := k.expiresAt.Some? && k.expiresAt.value < now;
                 && (v == Refused(Expired) <==> late)
                 && (v.Refused? && v.why.IPLimit? <==> !late && !RoomFor(t, k, ip))
                 && (v.Refused? && v.why.IPLimit? ==>
                      v.why.bound == |LoggedIPs(t.logs, k.id)| && v.why.limit == k.maxIPs)
                 && (v == Refused(CurfewHours) <==>
                     !late && RoomFor(t, k, ip) && InCurfew(k.curfewStart, k.curfewEnd, now))
  {
    hide InCurfew, Run, Sound, RoomFor, IPAllowed;
    var t := Run(EMPTY, events);
    ReachableSound(events);
    SoundIsKeyed(t);
    RunBindingsUsed(EMPTY, events);
    OnlyRow(t, token);
    var i := ValueIndex(t, token);
    assert i < |t.tokens| ==> t.tokens[i] in t.tokens && t.tokens[i].token == token;
    hide ValueIndex, Keyed, BindingsUsed;
    if i < |t.tokens| {
      var k := t.tokens[i];
      IPAllowedByLog(t, k, ip);
      BindingsAreLoggedIPs(t, k.id);
      FullIsCounted(t, k, ip);
    }
  }

  lemma FullIsCounted(t: Tables, k: UserToken, ip: string)
    ensures !RoomFor(t, k, ip) ==> |LoggedIPs(t.logs, k.id)| <= MAX_INT32
  {}

  // ---- the times in the rows are the times in the log ----

  function OfToken(id: string): UsageLog -> bool {
    (l: UsageLog) => l.tokenID == id
  }

  function OfAddress(id: string, ip: string): UsageLog -> bool {
    (l: UsageLog) => l.tokenID == id && l.ip == ip
  }

  /** The time of the last log that satisfies `p`. */
  function Latest(logs: seq<UsageLog>, p: UsageLog -> bool): Option<int> {
    if logs == [] then None
    else
      var n := |logs| - 1;
      if p(logs[n]) then Some(logs[n].requestTime) else Latest(logs[..n], p)
  }

  /** The time of the first one. */
  function Earliest(logs: seq<UsageLog>, p: UsageLog -> bool): Option<int> {
    if logs == [] then None
    else
      var n := |logs| - 1;
      if Earliest(logs[..n], p).Some? then Earliest(logs[..n], p)
      else if p(logs[n]) then Some(logs[n].requestTime)
      else None
  }

  ghost predicate TokenTimed(t: Tables, k: UserToken) {
    k.lastUsedAt == Latest(t.logs, OfToken(k.id))
  }

  ghost predicate BindingTimed(t: Tables, b: Binding) {
    && Earliest(t.logs, OfAddress(b.tokenID, b.ip)) == Some(b.firstSeenAt)
    && Latest(t.logs, OfAddress(b.tokenID, b.ip)) == Some(b.lastSeenAt)
  }

  /** A token was last used when its log last says so, and an address first and last seen likewise. */
  ghost predicate Timed(t: Tables) {
    && (forall k :: k in t.tokens ==> TokenTimed(t, k))
    && (forall b :: b in t.bindings ==> BindingTimed(t, b))
  }

  lemma TimesAppend(logs: seq<UsageLog>, l: UsageLog, p: UsageLog -> bool)
    ensures Latest(logs + [l], p) == if p(l) then Some(l.requestTime) else Latest(logs, p)
    ensures Earliest(logs + [l], p) ==
            if Earliest(logs, p).None? && p(l) then Some(l.requestTime) else Earliest(logs, p)
  {
    assert (logs + [l])[..|logs|] == logs;
  }

  lemma {:induction false} TimesFilter(logs: seq<UsageLog>, p: UsageLog -> bool, q: UsageLog -> bool)
    requires forall l :: l in logs && p(l) ==> q(l)
    ensures Latest(Filter(logs, q), p) == Latest(logs, p)
    ensures Earliest(Filter(logs, q), p) == Earliest(logs, p)
  {
    if logs != [] {
      var init, last := logs[..|logs| - 1], logs[|logs| - 1];
      TimesFilter(init, p, q);
      assert last in logs;
      var kept := Filter(init, q);
      TimesAppend(kept, last, p);
      assert kept + [] == kept;
    }
  }

  lemma {:induction false} NoTimes(logs: seq<UsageLog>, p: UsageLog -> bool)
    requires forall l :: l in logs ==> !p(l)
    ensures Latest(logs, p) == Earliest(logs, p) == None
  {
    if logs != [] {
      assert logs[|logs| - 1] in logs;
      NoTimes(logs[..|logs| - 1], p);
    }
  }

  lemma RecordTimed(t: Tables, u: Use, now: int)
    requires Sound(t) && Timed(t) && CanRecord(t, u)
    ensures Timed(Recorded(t, u, now))
  {
    var d := Recorded(t, u, now);
    var i, b := RecordEffect(t, u, now);
    hide Recorded, Sound, CanRecord, Timed, Latest, Earliest;
    var l := d.logs[|t.logs|];
    forall k | k in d.tokens
      ensures TokenTimed(d, k)
    {
      TimesAppend(t.logs, l, OfToken(k.id));
      RecordTokenTimed(t, u, now, d, i, k);
    }
    forall c | c in d.bindings
      ensures BindingTimed(d, c)
    {
      TimesAppend(t.logs, l, OfAddress(c.tokenID, c.ip));
      RecordBindingTimed(t, u, now, d, c);
    }
    TimedParts(d);
  }

  lemma TimedParts(t: Tables)
    requires forall k :: k in t.tokens ==> TokenTimed(t, k)
    requires forall b :: b in t.bindings ==> BindingTimed(t, b)
    ensures Timed(t)
  {}

  lemma RecordTokenTimed(t: Tables, u: Use, now: int, d: Tables, i: nat, k: UserToken)
    requires Sound(t) && Timed(t) && k in d.tokens && i < |t.tokens| == |d.tokens| && t.tokens[i].id == u.tokenID
    requires forall j :: 0 <= j < |t.tokens| && j != i ==> d.tokens[j] == t.tokens[j]
    requires d.tokens[i].id == u.tokenID && d.tokens[i].lastUsedAt == Some(now)
    requires Latest(d.logs, OfToken(k.id)) == if k.id == u.tokenID then Some(now) else Latest(t.logs, OfToken(k.id))
    ensures TokenTimed(d, k)
  {
    hide Latest;
    var j :| 0 <= j < |d.tokens| && d.tokens[j] == k;
    if j != i {
      assert TokenTimed(t, t.tokens[j]);
      SameRow(t, i);
      SameRow(t, j);
    }
  }

  lemma RecordBindingTimed(t: Tables, u: Use, now: int, d: Tables, c: Binding)
    requires Sound(t) && Timed(t) && CanRecord(t, u) && d == Recorded(t, u, now) && c in d.bindings
    requires var mine := c.tokenID == u.tokenID && c.ip == u.ip;
             var p := OfAddress(c.tokenID, c.ip);
             && Latest(d.logs, p) == (if mine then Some(now) else Latest(t.logs, p))
             && Earliest(d.logs, p) == (if mine && Earliest(t.logs, p).None? then Some(now) else Earliest(t.logs, p))
    ensures BindingTimed(d, c)
  {
    hide Latest, Earliest, TokenIndex;
    var j :| 0 <= j < |d.bindings| && d.bindings[j] == c;
    if j < |t.bindings| {
      assert BindingTimed(t, t.bindings[j]);
      var b := BindingIndex(t, u.tokenID, u.ip);
      assert j != b && b < |t.bindings| ==> BindingPair(t.bindings[j]) != BindingPair(t.bindings[b]);
    } else {
      FreshAddress(t, u.tokenID, u.ip);
      NoTimes(t.logs, OfAddress(u.tokenID, u.ip));
    }
  }

  /** An address that is not bound is not in the log. */
  lemma FreshAddress(t: Tables, id: string, ip: string)
    requires Sound(t) && !Bound(t, id, ip)
    ensures forall l :: l in t.logs ==> !OfAddress(id, ip)(l)
  {
    hide BindingIndex;
    forall l | l in t.logs
      ensures !OfAddress(id, ip)(l)
    {
      assert Bound(t, l.tokenID, l.ip);
    }
  }

  lemma DeleteTimed(t: Tables, id: string)
    requires Timed(t)
    ensures Timed(Deleted(t, id))
  {
    DeleteEffect(t, id);
    var d := Deleted(t, id);
    var kept := (l: UsageLog) => l.tokenID != id;
    hide Latest, Earliest;
    forall k | k in d.tokens
      ensures TokenTimed(d, k)
    {
      assert TokenTimed(t, k);
      TimesFilter(t.logs, OfToken(k.id), kept);
    }
    forall b | b in d.bindings
      ensures BindingTimed(d, b)
    {
      assert BindingTimed(t, b);
      TimesFilter(t.logs, OfAddress(b.tokenID, b.ip), kept);
    }
  }

  lemma CreateTimed(t: Tables, r: NewToken, now: int)
    requires Sound(t) && Timed(t)
    ensures Timed(Created(t, r, now))
  {
    hide Latest, Earliest;
    CreateEffect(t, r, now);
    var d := Created(t, r, now);
    forall k | k in d.tokens
      ensures TokenTimed(d, k)
    {
      if k in t.tokens {
        assert TokenTimed(t, k);
      } else {
        assert k == d.tokens[|t.tokens|];
        UnusedToken(t, r.id);
        NoTimes(t.logs, OfToken(r.id));
      }
    }
    forall b | b in d.bindings
      ensures BindingTimed(d, b)
    {
      assert BindingTimed(t, b);
    }
  }

  lemma UnusedToken(t: Tables, id: string)
    requires Sound(t) && !HasToken(t, id)
    ensures forall l :: l in t.logs ==> !OfToken(id)(l)
  {
    hide TokenIndex;
  }

  /** Rows replaced in place by rows of the same id and the same last use. */
  lemma SameUseTimed(t: Tables, d: Tables, i: nat, id: string)
    requires Timed(t) && OneToken(t, d, id, i)
    requires i < |t.tokens| ==> d.tokens[i].id == t.tokens[i].id && d.tokens[i].lastUsedAt == t.tokens[i].lastUsedAt
    ensures Timed(d)
  {
    hide Latest, Earliest;
    forall k | k in d.tokens
      ensures TokenTimed(d, k)
    {
      var j :| 0 <= j < |d.tokens| && d.tokens[j] == k;
      assert TokenTimed(t, t.tokens[j]);
    }
    forall b | b in d.bindings
      ensures BindingTimed(d, b)
    {
      assert BindingTimed(t, b);
    }
  }

  lemma StepTimed(t: Tables, e: Event)
    requires Sound(t) && Timed(t)
    ensures Timed(Step(t, e))
  {
    hide Sound, Timed, Created, Deleted, Recorded, VerdictFor, CanRecord, Patched;
    match e.op
    case Create(r) => CreateTimed(t, r, e.now);
    case Update(id, p) =>
      var i := UpdateEffect(t, id, p, e.now);
      SameUseTimed(t, Updated(t, id, p, e.now), i, id);
    case Renew(id, kind) =>
      var i := RenewEffect(t, id, kind, e.now);
      SameUseTimed(t, Renewed(t, id, kind, e.now), i, id);
    case Delete(id) => DeleteTimed(t, id);
    case Record(u) => RecordOrNotTimed(t, u, e.now);
    case Serve(token, u) =>
      if VerdictFor(t, token, u.ip, e.now).Accepted? {
        AcceptedRow(t, token, u.ip, e.now);
        RecordOrNotTimed(t, u.(tokenID := t.tokens[ValueIndex(t, token)].id), e.now);
      }
  }

  lemma RecordOrNotTimed(t: Tables, u: Use, now: int)
    requires Sound(t) && Timed(t)
    ensures Timed(Recorded(t, u, now))
  {
    hide Sound, Timed, Recorded, CanRecord;
    if CanRecord(t, u) {
      RecordTimed(t, u, now);
    } else {
      RecordFails(t, u, now);
    }
  }

  /** Over every run from the empty database: a token's last use is the time of its last log, and an
      address was first and last seen at the times of its first and last log. */
  lemma {:induction false} RunTimed(events: seq<Event>)
    ensures Timed(Run(EMPTY, events))
  {
    hide Sound, Step;
    if events != [] {
      var init := events[..|events| - 1];
      RunTimed(init);
      ReachableSound(init);
      StepTimed(Run(EMPTY, init), events[|events| - 1]);
    }
  }
}
