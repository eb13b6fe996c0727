/** The user-token database: tokens, the addresses each was used from, and the usage log. */
module TokenDb {
  import opened Wrappers
  import opened Search
  import opened Curfew

  const MAX_INT32 := 0x7FFF_FFFF
  const MIN_INT32 := -0x8000_0000

  type Int32 = n: int | MIN_INT32 <= n <= MAX_INT32

  /** Two's-complement addition, as a release build performs it. */
  function Add32(a: Int32, b: Int32): Int32 {
    (a + b + 0x8000_0000) % 0x1_0000_0000 - 0x8000_0000
  }

  /** Reading a count into an i32: a count too large for the type is an error, read as zero. */
  function ReadInt32(n: int): Int32 {
    if MIN_INT32 <= n <= MAX_INT32 then n else 0
  }

  datatype UserToken = UserToken(
    id: string,
    token: string,
    username: string,
    description: Option<string>,
    enabled: bool,
    expiresType: string,
    expiresAt: Option<int>,
    maxIPs: Int32,
    curfewStart: Option<string>,
    curfewEnd: Option<string>,
    createdAt: int,
    updatedAt: int,
    lastUsedAt: Option<int>,
    totalRequests: int,
    totalTokensUsed: int)

  datatype Binding = Binding(id: string, tokenID: string, ip: string, firstSeenAt: int, lastSeenAt: int,
                             requestCount: int, userAgent: Option<string>)

  datatype UsageLog = UsageLog(id: string, tokenID: string, ip: string, model: string,
                               inputTokens: Int32, outputTokens: Int32, requestTime: int, status: nat)

  datatype Tables = Tables(tokens: seq<UserToken>, bindings: seq<Binding>, logs: seq<UsageLog>)

  // ---- requests ----

  datatype NewToken = NewToken(
    id: string,
    token: string,
    username: string,
    expiresType: string,
    description: Option<string>,
    maxIPs: Int32,
    curfewStart: Option<string>,
    curfewEnd: Option<string>,
    customExpiresAt: Option<int>)

  datatype Patch = Patch(
    username: Option<string>,
    description: Option<string>,
    enabled: Option<bool>,
    maxIPs: Option<Int32>,
    curfewStart: Option<Option<string>>,
    curfewEnd: Option<Option<string>>)

  /** One use of a token, with the identifiers its rows will get. */
  datatype Use = Use(tokenID: string, ip: string, model: string, inputTokens: Int32, outputTokens: Int32, status: nat,
                     userAgent: Option<string>, bindingID: string, logID: string)

  datatype Refusal = Unknown | Expired | IPLimit(bound: Int32, limit: Int32) | CurfewHours

  datatype Verdict = Accepted | Refused(why: Refusal)

  // ---- queries ----

  function TokenIndex(t: Tables, id: string): (k: nat)
    ensures k <= |t.tokens|
  {
    FirstIndex(t.tokens, (k: UserToken) => k.id == id)
  }

  function ValueIndex(t: Tables, token: string): (k: nat)
    ensures k <= |t.tokens|
  {
    FirstIndex(t.tokens, (k: UserToken) => k.token == token)
  }

  function BindingIndex(t: Tables, id: string, ip: string): (k: nat)
    ensures k <= |t.bindings|
  {
    FirstIndex(t.bindings, (b: Binding) => b.tokenID == id && b.ip == ip)
  }

  predicate HasToken(t: Tables, id: string) {
    TokenIndex(t, id) < |t.tokens|
  }

  predicate Bound(t: Tables, id: string, ip: string) {
    BindingIndex(t, id, ip) < |t.bindings|
  }

  function BoundTo(id: string): Binding -> int {
    (b: Binding) => if b.tokenID == id then 1 else 0
  }

  function BindingCount(t: Tables, id: string): int {
    Sum(t.bindings, BoundTo(id))
  }

  /** The IP clause of validation. */
  predicate IPAllowed(t: Tables, k: UserToken, ip: string) {
    k.maxIPs > 0 ==> Bound(t, k.id, ip) || ReadInt32(BindingCount(t, k.id)) < k.maxIPs
  }

  function VerdictFor(t: Tables, token: string, ip: string, now: int): Verdict {
    var i := ValueIndex(t, token);
    if i == |t.tokens| then Refused(Unknown)
    else
      var k := t.tokens[i];
      if k.expiresAt.Some? && k.expiresAt.value < now then Refused(Expired)
      else if !IPAllowed(t, k, ip) then Refused(IPLimit(ReadInt32(BindingCount(t, k.id)), k.maxIPs))
      else if InCurfew(k.curfewStart, k.curfewEnd, now) then Refused(CurfewHours)
      else Accepted
  }

  // ---- updates ----

  const DAY := 86_400

  function Lifetime(expiresType: string): Option<int> {
    if expiresType == "day" then Some(DAY)
    else if expiresType == "week" then Some(7 * DAY)
    else if expiresType == "month" then Some(30 * DAY)
    else None
  }

  function ExpiryFrom(expiresType: string, now: int, custom: Option<int>): Option<int> {
    if Lifetime(expiresType).Some? then Some(now + Lifetime(expiresType).value)
    else if expiresType == "custom" then custom
    else None
  }

  function TokenRow(r: NewToken, now: int): UserToken {
    UserToken(r.id, r.token, r.username, r.description, true, r.expiresType,
        ExpiryFrom(r.expiresType, now, r.customExpiresAt),
              r.maxIPs, r.curfewStart, r.curfewEnd, now, now, None, 0, 0)
  }

  predicate CanCreate(t: Tables, r: NewToken) {
    TokenIndex(t, r.id) == |t.tokens| && ValueIndex(t, r.token) == |t.tokens|
  }

  function Created(t: Tables, r: NewToken, now: int): Tables {
    if CanCreate(t, r) then t.(tokens := t.tokens + [TokenRow(r, now)]) else t
  }

  function Patched(k: UserToken, p: Patch, now: int): UserToken {
    k.(updatedAt := now,
       username := p.username.GetOr(k.username),
       description := if p.description.Some? then p.description else k.description,
       enabled := p.enabled.GetOr(k.enabled),
       maxIPs := p.maxIPs.GetOr(k.maxIPs),
       curfewStart := p.curfewStart.GetOr(k.curfewStart),
       curfewEnd := p.curfewEnd.GetOr(k.curfewEnd))
  }

  function Updated(t: Tables, id: string, p: Patch, now: int): Tables {
    var i := TokenIndex(t, id);
    if i < |t.tokens| then t.(tokens := t.tokens[i := Patched(t.tokens[i], p, now)]) else t
  }

  function RenewedRow(k: UserToken, expiresType: string, now: int): UserToken {
    k.(expiresType := expiresType, expiresAt := ExpiryFrom(expiresType, now, None), updatedAt := now, enabled := true)
  }

  function Renewed(t: Tables, id: string, expiresType: string, now: int): Tables {
    var i := TokenIndex(t, id);
    if i < |t.tokens| then t.(tokens := t.tokens[i := RenewedRow(t.tokens[i], expiresType, now)]) else t
  }

  /** The token and, by the cascading foreign keys, everything recorded under it. */
  function Deleted(t: Tables, id: string): Tables {
    Tables(Filter(t.tokens, (k: UserToken) => k.id != id),
           Filter(t.bindings, (b: Binding) => b.tokenID != id),
           Filter(t.logs, (l: UsageLog) => l.tokenID != id))
  }

  function UsedRow(k: UserToken, u: Use, now: int): UserToken {
    k.(lastUsedAt := Some(now), totalRequests := k.totalRequests + 1,
       totalTokensUsed := k.totalTokensUsed + Add32(u.inputTokens, u.outputTokens))
  }

  function SeenRow(b: Binding, u: Use, now: int): Binding {
    b.(lastSeenAt := now, requestCount := b.requestCount + 1,
       userAgent := if u.userAgent.Some? then u.userAgent else b.userAgent)
  }

  function BindingRow(u: Use, now: int): Binding {
    Binding(u.bindingID, u.tokenID, u.ip, now, now, 1, u.userAgent)
  }

  function LogRow(u: Use, now: int): UsageLog {
    UsageLog(u.logID, u.tokenID, u.ip, u.model, u.inputTokens, u.outputTokens, now, u.status)
  }

  /** The constraints under which the transaction commits: the token exists, the new keys are new. */
  predicate CanRecord(t: Tables, u: Use) {
    && HasToken(t, u.tokenID)
    && (Bound(t, u.tokenID, u.ip) || FirstIndex(t.bindings, (b: Binding) => b.id == u.bindingID) == |t.bindings|)
    && FirstIndex(t.logs, (l: UsageLog) => l.id == u.logID) == |t.logs|
  }

  function Recorded(t: Tables, u: Use, now: int): Tables {
    if !CanRecord(t, u) then t
    else
      var i, b := TokenIndex(t, u.tokenID), BindingIndex(t, u.tokenID, u.ip);
      Tables(t.tokens[i := UsedRow(t.tokens[i], u, now)],
             if b < |t.bindings| then t.bindings[b := SeenRow(t.bindings[b], u, now)]
                 else t.bindings + [BindingRow(u, now)],
             t.logs + [LogRow(u, now)])
  }

  class UserTokenDb {
    var tables: Tables

    method CreateToken(r: NewToken, now: int) returns (ok: bool)
      modifies this
      ensures tables == Created(old(tables), r, now) && ok == CanCreate(old(tables), r)
    {
      var expiresAt: Option<int>;
      match r.expiresType {
        case "day" => expiresAt := Some(now + DAY);
        case "week" => expiresAt := Some(now + 7 * DAY);
        case "month" => expiresAt := Some(now + 30 * DAY);
        case "custom" => expiresAt := r.customExpiresAt;
        case _ => expiresAt := None;
      }
      var i := FindFirst(tables.tokens, (k: UserToken) => k.id == r.id);
      var j := FindFirst(tables.tokens, (k: UserToken) => k.token == r.token);
      ok := i == |tables.tokens| && j == |tables.tokens|;
      if ok {
        var row := UserToken(r.id, r.token, r.username, r.description, true, r.expiresType, expiresAt, r.maxIPs,
                             r.curfewStart, r.curfewEnd, now, now, None, 0, 0);
        tables := tables.(tokens := tables.tokens + [row]);
      }
    }

    method UpdateToken(id: string, p: Patch, now: int)
      modifies this
      ensures tables == Updated(old(tables), id, p, now)
    {
      hide Patched;
      var i := FindFirst(tables.tokens, (k: UserToken) => k.id == id);
      if i == |tables.tokens| {
        return;
      }
      var k := PatchRow(tables.tokens[i], p, now);
      tables := tables.(tokens := tables.tokens[i := k]);
    }

    /** The columns the update names. */
    static method PatchRow(token: UserToken, p: Patch, now: int) returns (k: UserToken)
      ensures k == Patched(token, p, now)
    {
      k := token.(updatedAt := now);
      if p.username.Some? {
        k := k.(username := p.username.value);
      }
      if p.description.Some? {
        k := k.(description := Some(p.description.value));
      }
      if p.enabled.Some? {
        k := k.(enabled := p.enabled.value);
      }
      if p.maxIPs.Some? {
        k := k.(maxIPs := p.maxIPs.value);
      }
      if p.curfewStart.Some? {
        k := k.(curfewStart := p.curfewStart.value);
      }
      if p.curfewEnd.Some? {
        k := k.(curfewEnd := p.curfewEnd.value);
      }
    }

    method RenewToken(id: string, expiresType: string, now: int)
      modifies this
      ensures tables == Renewed(old(tables), id, expiresType, now)
    {
      var expiresAt: Option<int>;
      match expiresType {
        case "day" => expiresAt := Some(now + DAY);
        case "week" => expiresAt := Some(now + 7 * DAY);
        case "month" => expiresAt := Some(now + 30 * DAY);
        case _ => expiresAt := None;
      }
      var i := FindFirst(tables.tokens, (k: UserToken) => k.id == id);
      if i < |tables.tokens| {
        var k := tables.tokens[i].(expiresType := expiresType, expiresAt := expiresAt, updatedAt := now,
            enabled := true);
        tables := tables.(tokens := tables.tokens[i := k]);
      }
    }

    method DeleteToken(id: string)
      modifies this
      ensures tables == Deleted(old(tables), id)
    {
      tables := tables.(tokens := Filter(tables.tokens, (k: UserToken) => k.id != id));
      tables := tables.(bindings := Filter(tables.bindings, (b: Binding) => b.tokenID != id));
      tables := tables.(logs := Filter(tables.logs, (l: UsageLog) => l.tokenID != id));
    }

    /** One transaction over the three tables; a violated constraint leaves them as they were. */
    method RecordTokenUsageAndIP(u: Use, now: int) returns (ok: bool)
      modifies this
      ensures tables == Recorded(old(tables), u, now) && ok == CanRecord(old(tables), u)
    {
      hide UsedRow, SeenRow, BindingRow, LogRow;
      var tokens, bindings, logs := tables.tokens, tables.bindings, tables.logs;
      var i := FindFirst(tokens, (k: UserToken) => k.id == u.tokenID);
      if i < |tokens| {
        var k := CountUse(tokens[i], u, now);
        tokens := tokens[i := k];
      }
      var b := FindFirst(bindings, (b: Binding) => b.tokenID == u.tokenID && b.ip == u.ip);
      if b < |bindings| {
        var seen := CountSeen(bindings[b], u, now);
        bindings := bindings[b := seen];
      } else {
        var clash := FindFirst(bindings, (b: Binding) => b.id == u.bindingID);
        if clash < |bindings| || i == |tokens| {
          return false;
        }
        bindings := bindings + [BindingRow(u, now)];
      }
      var clash := FindFirst(logs, (l: UsageLog) => l.id == u.logID);
      if clash < |logs| || i == |tokens| {
        return false;
      }
      logs := logs + [LogRow(u, now)];
      tables := Tables(tokens, bindings, logs);
      return true;
    }

    static method CountUse(token: UserToken, u: Use, now: int) returns (k: UserToken)
      ensures k == UsedRow(token, u, now)
    {
      k := token.(lastUsedAt := Some(now));
      k := k.(totalRequests := k.totalRequests + 1);
      k := k.(totalTokensUsed := k.totalTokensUsed + Add32(u.inputTokens, u.outputTokens));
    }

    static method CountSeen(binding: Binding, u: Use, now: int) returns (b: Binding)
      ensures b == SeenRow(binding, u, now)
    {
      b := binding.(lastSeenAt := now);
      b := b.(requestCount := b.requestCount + 1);
      if u.userAgent.Some? {
        b := b.(userAgent := u.userAgent);
      }
    }

    method ValidateToken(token: string, ip: string, now: int) returns (v: Verdict)
      ensures v == VerdictFor(tables, token, ip, now)
    {
      hide InCurfew;
      var i := FindFirst(tables.tokens, (k: UserToken) => k.token == token);
      if i == |tables.tokens| {
        return Refused(Unknown);
      }
      var k := tables.tokens[i];
      if k.expiresAt.Some? && k.expiresAt.value < now {
        return Refused(Expired);
      }
      if k.maxIPs > 0 {
        var b := FindFirst(tables.bindings, (b: Binding) => b.tokenID == k.id && b.ip == ip);
        if b == |tables.bindings| {
          var count := 0;
          for j := 0 to |tables.bindings|
            invariant count == Sum(tables.bindings[..j], BoundTo(k.id))
          {
            SumAppend(tables.bindings[..j], BoundTo(k.id), tables.bindings[j]);
            assert tables.bindings[..j + 1] == tables.bindings[..j] + [tables.bindings[j]];
            if tables.bindings[j].tokenID == k.id {
              count := count + 1;
            }
          }
          assert tables.bindings[..|tables.bindings|] == tables.bindings;
          var current := ReadInt32(count);
          if current >= k.maxIPs {
            return Refused(IPLimit(current, k.maxIPs));
          }
        }
      }
      if InCurfew(k.curfewStart, k.curfewEnd, now) {
        return Refused(CurfewHours);
      }
      return Accepted;
    }
  }
}
