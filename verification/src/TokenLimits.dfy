/** What the three tables keep over every run: redundant counters that agree with the log, and
    the bound on the addresses a token is used from. */
module TokenLimits {
  import opened Wrappers
  import opened Search
  import opened Curfew
  import opened TokenDb

  datatype Op =
    | Create(request: NewToken)
    | Update(id: string, patch: Patch)
    | Renew(id: string, expiresType: string)
    | Delete(id: string)
    | Record(use: Use)
    | Serve(token: string, use: Use)  // a use recorded right after the token was accepted

  datatype Event = Event(op: Op, now: int)

  /** A request under a token string: when accepted it is recorded under that token's row. */
  function Served(t: Tables, token: string, u: Use, now: int): Tables {
    if VerdictFor(t, token, u.ip, now).Accepted?
    then Recorded(t, u.(tokenID := t.tokens[ValueIndex(t, token)].id), now)
    else t
  }

  function Step(t: Tables, e: Event): Tables {
    match e.op
    case Create(r) => Created(t, r, e.now)
    case Update(id, p) => Updated(t, id, p, e.now)
    case Renew(id, kind) => Renewed(t, id, kind, e.now)
    case Delete(id) => Deleted(t, id)
    case Record(u) => Recorded(t, u, e.now)
    case Serve(token, u) => Served(t, token, u, e.now)
  }

  function Run(t: Tables, events: seq<Event>): Tables {
    if events == [] then t else Step(Run(t, events[..|events| - 1]), events[|events| - 1])
  }

  const EMPTY := Tables([], [], [])

  // ---- the invariant ----

  function TokenKey(k: UserToken): string { k.id }
  function TokenValue(k: UserToken): string { k.token }
  function BindingKey(b: Binding): string { b.id }
  function BindingPair(b: Binding): (string, string) { (b.tokenID, b.ip) }
  function LogKey(l: UsageLog): string { l.id }

  /** PRIMARY KEY and UNIQUE. */
  ghost predicate Keyed(t: Tables) {
    && Distinct(t.tokens, TokenKey) && Distinct(t.tokens, TokenValue)
    && Distinct(t.bindings, BindingKey) && Distinct(t.bindings, BindingPair)
    && Distinct(t.logs, LogKey)
  }

  /** FOREIGN KEY. */
  ghost predicate Linked(t: Tables) {
    && (forall b :: b in t.bindings ==> HasToken(t, b.tokenID))
    && (forall l :: l in t.logs ==> HasToken(t, l.tokenID))
  }

  function Uses(id: string): UsageLog -> int {
    (l: UsageLog) => if l.tokenID == id then 1 else 0
  }

  function UsesFrom(id: string, ip: string): UsageLog -> int {
    (l: UsageLog) => if l.tokenID == id && l.ip == ip then 1 else 0
  }

  /** The tokens one logged use adds: input plus output in 32 bits. */
  function Spent(id: string): UsageLog -> int {
    (l: UsageLog) => if l.tokenID == id then Add32(l.inputTokens, l.outputTokens) else 0
  }

  function SpentExactly(id: string): UsageLog -> int {
    (l: UsageLog) => if l.tokenID == id then l.inputTokens + l.outputTokens else 0
  }

  function RequestsOf(id: string): Binding -> int {
    (b: Binding) => if b.tokenID == id then b.requestCount else 0
  }

  /** The redundant counters of the token row. */
  ghost predicate TokenCounted(t: Tables, k: UserToken) {
    && k.totalRequests == Sum(t.logs, Uses(k.id)) == Sum(t.bindings, RequestsOf(k.id))
    && k.totalTokensUsed == Sum(t.logs, Spent(k.id))
  }

  /** The redundant counter of a binding row. */
  ghost predicate BindingCounted(t: Tables, b: Binding) {
    b.requestCount == Sum(t.logs, UsesFrom(b.tokenID, b.ip))
  }

  ghost predicate Counted(t: Tables) {
    && (forall k :: k in t.tokens ==> TokenCounted(t, k))
    && (forall b :: b in t.bindings ==> BindingCounted(t, b))
    && (forall l :: l in t.logs ==> Bound(t, l.tokenID, l.ip))
  }

  ghost predicate Sound(t: Tables) {
    Keyed(t) && Linked(t) && Counted(t)
  }

  // ---- tables whose tokens alone change ----

  /** Rows replaced in place by rows with the same keys and counters. */
  ghost predicate SameCounters(a: seq<UserToken>, b: seq<UserToken>) {
    && |a| == |b|
    && forall i :: 0 <= i < |a| ==>
         && a[i].id == b[i].id && a[i].token == b[i].token
         && a[i].totalRequests == b[i].totalRequests && a[i].totalTokensUsed == b[i].totalTokensUsed
  }

  lemma SameIndex(a: Tables, b: Tables, id: string)
    requires |a.tokens| == |b.tokens| && forall i :: 0 <= i < |a.tokens| ==> a.tokens[i].id == b.tokens[i].id
    ensures TokenIndex(a, id) == TokenIndex(b, id)
  {
    var i, j := TokenIndex(a, id), TokenIndex(b, id);
    if i < |a.tokens| {
      assert b.tokens[i].id == id;
    }
    if j < |b.tokens| {
      assert a.tokens[j].id == id;
    }
  }

  lemma SameCountersSound(t: Tables, tokens: seq<UserToken>)
    requires Sound(t) && SameCounters(t.tokens, tokens)
    ensures Sound(t.(tokens := tokens))
  {
    var d := t.(tokens := tokens);
    forall id
      ensures HasToken(d, id) == HasToken(t, id)
    {
      SameIndex(t, d, id);
    }
    forall k | k in tokens
      ensures TokenCounted(d, k)
    {
      var i :| 0 <= i < |tokens| && tokens[i] == k;
      assert TokenCounted(t, t.tokens[i]);
    }
    assert forall b :: b in t.bindings ==> BindingCounted(t, b) ==> BindingCounted(d, b);
    forall l | l in t.logs
      ensures Bound(d, l.tokenID, l.ip)
    {
      assert Bound(t, l.tokenID, l.ip);
    }
  }

  lemma UpdateSound(t: Tables, id: string, p: Patch, now: int)
    requires Sound(t)
    ensures Sound(Updated(t, id, p, now))
  {
    hide Sound;
    SameCountersSound(t, Updated(t, id, p, now).tokens);
  }

  lemma RenewSound(t: Tables, id: string, kind: string, now: int)
    requires Sound(t)
    ensures Sound(Renewed(t, id, kind, now))
  {
    hide Sound, ExpiryFrom;
    SameCountersSound(t, Renewed(t, id, kind, now).tokens);
  }

  // ---- creation and deletion ----

  lemma TokenListed(t: Tables, id: string)
    ensures HasToken(t, id) <==> exists k :: k in t.tokens && k.id == id
  {
    if HasToken(t, id) {
      assert t.tokens[TokenIndex(t, id)] in t.tokens;
    }
  }

  lemma PairListed(t: Tables, id: string, ip: string)
    ensures Bound(t, id, ip) <==> exists b :: b in t.bindings && b.tokenID == id && b.ip == ip
  {
    if Bound(t, id, ip) {
      assert t.bindings[BindingIndex(t, id, ip)] in t.bindings;
    }
  }

  lemma CreateSound(t: Tables, r: NewToken, now: int)
    requires Sound(t)
    ensures Sound(Created(t, r, now))
  {
    if CanCreate(t, r) {
      hide ExpiryFrom, Sum;
      var d, row := Created(t, r, now), TokenRow(r, now);
      DistinctAppend(t.tokens, TokenKey, row);
      DistinctAppend(t.tokens, TokenValue, row);
      forall id | HasToken(t, id)
        ensures HasToken(d, id)
      {
        assert d.tokens[TokenIndex(t, id)].id == id;
      }
      FreshUnused(t, r.id);
      forall k | k in d.tokens
        ensures TokenCounted(d, k)
      {
        assert k == row || (k in t.tokens && TokenCounted(t, k));
      }
      forall b | b in d.bindings
        ensures BindingCounted(d, b)
      {
        assert BindingCounted(t, b);
      }
      forall l | l in d.logs
        ensures Bound(d, l.tokenID, l.ip)
      {
        assert Bound(t, l.tokenID, l.ip);
      }
    }
  }

  /** Nothing is recorded under an identifier that names no token. */
  lemma FreshUnused(t: Tables, id: string)
    requires Linked(t) && !HasToken(t, id)
    ensures Sum(t.logs, Uses(id)) == Sum(t.logs, Spent(id)) == Sum(t.bindings, RequestsOf(id)) ==
            Sum(t.bindings, BoundTo(id)) == 0
  {
    hide TokenIndex;
    SumZero(t.logs, Uses(id));
    SumZero(t.logs, Spent(id));
    SumZero(t.bindings, RequestsOf(id));
    SumZero(t.bindings, BoundTo(id));
  }

  lemma DeleteLinked(t: Tables, id: string)
    requires Sound(t)
    ensures Linked(Deleted(t, id)) && Keyed(Deleted(t, id))
  {
    var d := Deleted(t, id);
    var tp, bp, lp := (k: UserToken) => k.id != id, (b: Binding) => b.tokenID != id, (l: UsageLog) => l.tokenID != id;
    FilterMembers(t.tokens, tp);
    FilterMembers(t.bindings, bp);
    FilterMembers(t.logs, lp);
    DistinctFilter(t.tokens, TokenKey, tp);
    DistinctFilter(t.tokens, TokenValue, tp);
    DistinctFilter(t.bindings, BindingKey, bp);
    DistinctFilter(t.bindings, BindingPair, bp);
    DistinctFilter(t.logs, LogKey, lp);
    forall other | HasToken(t, other) && other != id
      ensures HasToken(d, other)
    {
      TokenListed(t, other);
      TokenListed(d, other);
    }
  }

  lemma DeleteCounted(t: Tables, id: string)
    requires Sound(t)
    ensures Counted(Deleted(t, id))
  {
    var d := Deleted(t, id);
    var tp, bp, lp := (k: UserToken) => k.id != id, (b: Binding) => b.tokenID != id, (l: UsageLog) => l.tokenID != id;
    FilterMembers(t.tokens, tp);
    FilterMembers(t.bindings, bp);
    FilterMembers(t.logs, lp);
    forall k | k in d.tokens
      ensures TokenCounted(d, k)
    {
      assert TokenCounted(t, k);
      SumFilter(t.logs, Uses(k.id), lp);
      SumFilter(t.logs, Spent(k.id), lp);
      SumFilter(t.bindings, RequestsOf(k.id), bp);
    }
    forall b | b in d.bindings
      ensures BindingCounted(d, b)
    {
      assert BindingCounted(t, b);
      SumFilter(t.logs, UsesFrom(b.tokenID, b.ip), lp);
    }
    forall l | l in d.logs
      ensures Bound(d, l.tokenID, l.ip)
    {
      PairListed(t, l.tokenID, l.ip);
      PairListed(d, l.tokenID, l.ip);
    }
  }

  // ---- recording ----

  lemma RecordKeyed(t: Tables, u: Use, now: int)
    requires Sound(t) && CanRecord(t, u)
    ensures Keyed(Recorded(t, u, now))
  {
    hide Counted, Linked, Distinct;
    var i, b := TokenIndex(t, u.tokenID), BindingIndex(t, u.tokenID, u.ip);
    DistinctAppend(t.logs, LogKey, LogRow(u, now));
    DistinctReplace(t.tokens, TokenKey, i, UsedRow(t.tokens[i], u, now));
    DistinctReplace(t.tokens, TokenValue, i, UsedRow(t.tokens[i], u, now));
    if b == |t.bindings| {
      DistinctAppend(t.bindings, BindingKey, BindingRow(u, now));
      DistinctAppend(t.bindings, BindingPair, BindingRow(u, now));
    } else {
      DistinctReplace(t.bindings, BindingKey, b, SeenRow(t.bindings[b], u, now));
      DistinctReplace(t.bindings, BindingPair, b, SeenRow(t.bindings[b], u, now));
    }
  }

  lemma RecordLinked(t: Tables, u: Use, now: int)
    requires Sound(t) && CanRecord(t, u)
    ensures Linked(Recorded(t, u, now))
  {
    hide Counted, Keyed, TokenIndex;
    var d := Recorded(t, u, now);
    forall id
      ensures HasToken(d, id) == HasToken(t, id)
    {
      SameIndex(t, d, id);
    }
    forall b | b in d.bindings
      ensures HasToken(d, b.tokenID)
    {
      var j :| 0 <= j < |d.bindings| && d.bindings[j] == b;
      if j < |t.bindings| {
        assert t.bindings[j] in t.bindings;
      }
    }
  }

  /** How the sums over bindings and logs move with one recorded use. */
  lemma RecordSums(t: Tables, u: Use, now: int, id: string, ip: string)
    requires CanRecord(t, u)
    ensures var d := Recorded(t, u, now);
            var mine := if id == u.tokenID then 1 else 0;
            && Sum(d.logs, Uses(id)) == Sum(t.logs, Uses(id)) + mine
            && Sum(d.logs, Spent(id)) == Sum(t.logs, Spent(id)) + mine * Add32(u.inputTokens, u.outputTokens)
            && Sum(d.bindings, RequestsOf(id)) == Sum(t.bindings, RequestsOf(id)) + mine
            && Sum(d.logs, UsesFrom(id, ip)) == Sum(t.logs, UsesFrom(id, ip)) +
               (if id == u.tokenID && ip == u.ip then 1 else 0)
            && Sum(d.bindings, BoundTo(id)) == Sum(t.bindings, BoundTo(id)) +
               (if Bound(t, u.tokenID, u.ip) then 0 else mine)
  {
    hide Add32, TokenIndex;
    var b := BindingIndex(t, u.tokenID, u.ip);
    SumAppend(t.logs, Uses(id), LogRow(u, now));
    SumAppend(t.logs, Spent(id), LogRow(u, now));
    SumAppend(t.logs, UsesFrom(id, ip), LogRow(u, now));
    if b < |t.bindings| {
      SumUpdate(t.bindings, RequestsOf(id), b, SeenRow(t.bindings[b], u, now));
      SumUpdate(t.bindings, BoundTo(id), b, SeenRow(t.bindings[b], u, now));
    } else {
      SumAppend(t.bindings, RequestsOf(id), BindingRow(u, now));
      SumAppend(t.bindings, BoundTo(id), BindingRow(u, now));
    }
  }

  lemma RecordTokens(t: Tables, u: Use, now: int, k: UserToken)
    requires Sound(t) && CanRecord(t, u) && k in Recorded(t, u, now).tokens
    ensures TokenCounted(Recorded(t, u, now), k)
  {
    hide Sum, Add32, Recorded;
    var d, i := Recorded(t, u, now), TokenIndex(t, u.tokenID);
    RecordedRows(t, u, now);
    var j :| 0 <= j < |d.tokens| && d.tokens[j] == k;
    assert TokenCounted(t, t.tokens[j]);
    assert j != i ==> TokenKey(t.tokens[j]) != TokenKey(t.tokens[i]);
    RecordSums(t, u, now, k.id, u.ip);
  }

  lemma RecordedRows(t: Tables, u: Use, now: int)
    requires CanRecord(t, u)
    ensures var i := TokenIndex(t, u.tokenID);
            i < |t.tokens| && t.tokens[i].id == u.tokenID &&
                Recorded(t, u, now).tokens == t.tokens[i := UsedRow(t.tokens[i], u, now)]
  {
    hide UsedRow, SeenRow, BindingRow, LogRow;
  }

  lemma RecordBindings(t: Tables, u: Use, now: int, b: Binding)
    requires Sound(t) && CanRecord(t, u) && b in Recorded(t, u, now).bindings
    ensures BindingCounted(Recorded(t, u, now), b)
  {
    hide Sum, TokenIndex;
    var d, k := Recorded(t, u, now), BindingIndex(t, u.tokenID, u.ip);
    var j :| 0 <= j < |d.bindings| && d.bindings[j] == b;
    RecordSums(t, u, now, b.tokenID, b.ip);
    if j < |t.bindings| {
      assert BindingCounted(t, t.bindings[j]);
      assert j != k < |t.bindings| ==> BindingPair(t.bindings[j]) != BindingPair(t.bindings[k]);
    } else {
      Unlogged(t, u.tokenID, u.ip);
    }
  }

  lemma Unlogged(t: Tables, id: string, ip: string)
    requires Counted(t) && !Bound(t, id, ip)
    ensures Sum(t.logs, UsesFrom(id, ip)) == 0
  {
    hide BindingIndex;
    SumZero(t.logs, UsesFrom(id, ip));
  }

  lemma RecordBound(t: Tables, u: Use, now: int, l: UsageLog)
    requires Counted(t) && CanRecord(t, u) && l in Recorded(t, u, now).logs
    ensures Bound(Recorded(t, u, now), l.tokenID, l.ip)
  {
    hide TokenIndex;
    var d := Recorded(t, u, now);
    var b := BindingIndex(t, u.tokenID, u.ip);
    if l == LogRow(u, now) {
      assert d.bindings[b].tokenID == u.tokenID && d.bindings[b].ip == u.ip;
    } else {
      assert l in t.logs && Bound(t, l.tokenID, l.ip);
      var j := BindingIndex(t, l.tokenID, l.ip);
      assert d.bindings[j].tokenID == l.tokenID && d.bindings[j].ip == l.ip;
    }
  }

  lemma RecordSound(t: Tables, u: Use, now: int)
    requires Sound(t)
    ensures Sound(Recorded(t, u, now))
  {
    if CanRecord(t, u) {
      RecordKeyed(t, u, now);
      RecordLinked(t, u, now);
      var d := Recorded(t, u, now);
      hide Recorded, Keyed, Linked, TokenCounted, BindingCounted, Bound, CanRecord;
      forall k | k in d.tokens ensures TokenCounted(d, k) { RecordTokens(t, u, now, k); }
      forall b | b in d.bindings ensures BindingCounted(d, b) { RecordBindings(t, u, now, b); }
      forall l | l in d.logs ensures Bound(d, l.tokenID, l.ip) { RecordBound(t, u, now, l); }
    }
  }

  // ---- runs ----

  lemma StepSound(t: Tables, e: Event)
    requires Sound(t)
    ensures Sound(Step(t, e))
  {
    hide Sound, Created, Updated, Renewed, Deleted, Recorded, VerdictFor;
    match e.op
    case Create(r) => CreateSound(t, r, e.now);
    case Update(id, p) => UpdateSound(t, id, p, e.now);
    case Renew(id, kind) => RenewSound(t, id, kind, e.now);
    case Delete(id) => DeleteLinked(t, id); DeleteCounted(t, id); SoundParts(Deleted(t, id));
    case Record(u) => RecordSound(t, u, e.now);
    case Serve(token, u) =>
      if VerdictFor(t, token, u.ip, e.now).Accepted? {
        AcceptedRow(t, token, u.ip, e.now);
        RecordSound(t, u.(tokenID := t.tokens[ValueIndex(t, token)].id), e.now);
      }
  }

  lemma AcceptedRow(t: Tables, token: string, ip: string, now: int)
    requires VerdictFor(t, token, ip, now).Accepted?
    ensures ValueIndex(t, token) < |t.tokens|
    ensures IPAllowed(t, t.tokens[ValueIndex(t, token)], ip)
  {
    hide IPAllowed, InCurfew, ReadInt32;
  }

  lemma SoundParts(t: Tables)
    requires Keyed(t) && Linked(t) && Counted(t)
    ensures Sound(t)
  {}

  /** Over every run from the empty database, in which any operation may fail on a clash: the
      keys are unique, nothing is recorded under a missing token, total_requests is both the
      number of log rows and the sum of the bindings' counts, each binding counts exactly the
      log rows of its address, and every logged address is bound. */
  lemma {:induction false} RunSound(t: Tables, events: seq<Event>)
    requires Sound(t)
    ensures Sound(Run(t, events))
  {
    hide Sound, Step;
    if events != [] {
      RunSound(t, events[..|events| - 1]);
      StepSound(Run(t, events[..|events| - 1]), events[|events| - 1]);
    }
  }

  lemma ReachableSound(events: seq<Event>)
    ensures Sound(Run(EMPTY, events))
  {
    RunSound(EMPTY, events);
  }

  // ---- the bound on addresses ----

  ghost predicate WithinLimit(t: Tables, k: UserToken) {
    k.maxIPs > 0 ==> BindingCount(t, k.id) <= k.maxIPs
  }

  ghost predicate Limited(t: Tables) {
    forall k :: k in t.tokens ==> WithinLimit(t, k)
  }

  /** The operations that keep the bound, judged before they run: a use must find its address
      bound or room left, and a new limit must not be below the addresses already bound. */
  ghost predicate Allowed(t: Tables, e: Event) {
    match e.op
    case Record(u) => CanRecord(t, u) ==> IPAllowed(t, t.tokens[TokenIndex(t, u.tokenID)], u.ip)
    case Update(id, p) => HasToken(t, id) && p.maxIPs.Some? && p.maxIPs.value > 0 ==>
        BindingCount(t, id) <= p.maxIPs.value
    case _ => true
  }

  lemma CountNonNegative(t: Tables, id: string)
    ensures BindingCount(t, id) >= 0
  {
    SumNonNegative(t.bindings, BoundTo(id));
  }

  lemma {:induction false} SumNonNegative<T>(s: seq<T>, f: T -> int)
    requires forall x :: x in s ==> f(x) >= 0
    ensures Sum(s, f) >= 0
  {
    if s != [] {
      SumNonNegative(s[..|s| - 1], f);
    }
  }

  lemma RecordLimit(t: Tables, u: Use, now: int)
    requires Keyed(t) && Limited(t) && CanRecord(t, u)
    ensures Limited(Recorded(t, u, now)) <==> IPAllowed(t, t.tokens[TokenIndex(t, u.tokenID)], u.ip)
  {
    var d, i := Recorded(t, u, now), TokenIndex(t, u.tokenID);
    var row := t.tokens[i];
    assert d.tokens[i].id == row.id && d.tokens[i].maxIPs == row.maxIPs && d.tokens[i] in d.tokens;
    assert forall j :: 0 <= j < |t.tokens| ==>
           d.tokens[j].id == t.tokens[j].id && d.tokens[j].maxIPs == t.tokens[j].maxIPs;
    assert |d.tokens| == |t.tokens|;
    assert WithinLimit(t, row);
    RecordSums(t, u, now, row.id, u.ip);
    CountNonNegative(t, row.id);
    hide Recorded, Sum, Bound;
    if IPAllowed(t, row, u.ip) {
      forall k | k in d.tokens
        ensures WithinLimit(d, k)
      {
        var j :| 0 <= j < |d.tokens| && d.tokens[j] == k;
        assert WithinLimit(t, t.tokens[j]);
        assert j != i ==> TokenKey(t.tokens[j]) != TokenKey(t.tokens[i]);
        RecordSums(t, u, now, k.id, u.ip);
      }
    } else {
      assert !WithinLimit(d, d.tokens[i]);
    }
  }

  lemma UpdateLimit(t: Tables, id: string, p: Patch, now: int)
    requires Limited(t)
    ensures Limited(Updated(t, id, p, now)) <==> Allowed(t, Event(Update(id, p), now))
  {
    hide Sum;
    var d, i := Updated(t, id, p, now), TokenIndex(t, id);
    if i < |t.tokens| {
      assert d.tokens[i] in d.tokens && t.tokens[i] in t.tokens;
      assert forall k :: k in d.tokens ==> k == d.tokens[i] || k in t.tokens;
      assert forall k :: k in t.tokens ==> BindingCount(d, k.id) == BindingCount(t, k.id);
      assert WithinLimit(t, t.tokens[i]);
      assert Limited(d) <==> WithinLimit(d, d.tokens[i]) by {
        if WithinLimit(d, d.tokens[i]) {
          forall k | k in d.tokens ensures WithinLimit(d, k) { assert k in t.tokens ==> WithinLimit(t, k); }
        }
      }
    }
  }

  lemma OtherLimit(t: Tables, e: Event)
    requires Sound(t) && Limited(t) && (e.op.Create? || e.op.Renew? || e.op.Delete?)
    ensures Limited(Step(t, e))
  {
    hide Sum, TokenIndex, ExpiryFrom;
    var d := Step(t, e);
    forall k | k in d.tokens
      ensures WithinLimit(d, k)
    {
      if e.op.Delete? {
        FilterMembers(t.tokens, (k: UserToken) => k.id != e.op.id);
        SumFilter(t.bindings, BoundTo(k.id), (b: Binding) => b.tokenID != e.op.id);
        assert WithinLimit(t, k);
      } else if e.op.Create? {
        if k in t.tokens {
          assert WithinLimit(t, k);
        } else {
          FreshUnused(t, k.id);
        }
      } else {
        var j :| 0 <= j < |d.tokens| && d.tokens[j] == k;
        assert WithinLimit(t, t.tokens[j]);
      }
    }
  }

  /** A step keeps every token within its limit exactly when it is allowed; a use recorded right
      after acceptance, a creation, a renewal and a deletion always are. */
  lemma LimitKeptIff(t: Tables, e: Event)
    requires Sound(t) && Limited(t)
    ensures Limited(Step(t, e)) <==> Allowed(t, e)
  {
    hide Recorded, Updated, Sum, TokenIndex, VerdictFor, CanRecord, Limited, IPAllowed;
    match e.op
    case Record(u) =>
      if CanRecord(t, u) {
        RecordLimit(t, u, e.now);
      } else {
        RecordFails(t, u, e.now);
      }
    case Update(id, p) => UpdateLimit(t, id, p, e.now);
    case Serve(token, u) => ServeKeepsLimit(t, token, u, e.now);
    case _ => OtherLimit(t, e);
  }

  lemma RecordFails(t: Tables, u: Use, now: int)
    requires !CanRecord(t, u)
    ensures Recorded(t, u, now) == t
  {}

  lemma ServeKeepsLimit(t: Tables, token: string, u: Use, now: int)
    requires Sound(t) && Limited(t)
    ensures Limited(Served(t, token, u, now))
  {
    hide Recorded, Sum, CanRecord, VerdictFor, Limited, IPAllowed;
    if VerdictFor(t, token, u.ip, now).Accepted? {
      AcceptedRow(t, token, u.ip, now);
      var i := ValueIndex(t, token);
      var use := u.(tokenID := t.tokens[i].id);
      if CanRecord(t, use) {
        SameRow(t, i);
        RecordLimit(t, use, now);
      } else {
        RecordFails(t, use, now);
      }
    }
  }

  lemma SameRow(t: Tables, i: nat)
    requires Keyed(t) && i < |t.tokens|
    ensures TokenIndex(t, t.tokens[i].id) == i
  {
    var j := TokenIndex(t, t.tokens[i].id);
    assert j < i ==> TokenKey(t.tokens[j]) != TokenKey(t.tokens[i]);
  }

  ghost predicate AllAllowed(t: Tables, events: seq<Event>) {
    forall n :: 0 <= n < |events| ==> Allowed(Run(t, events[..n]), events[n])
  }

  /** Over a run whose raw records and limit changes are all allowed every token stays within its
      limit. */
  lemma {:induction false} RunKeepsLimit(t: Tables, events: seq<Event>)
    requires Sound(t) && Limited(t) && AllAllowed(t, events)
    ensures Limited(Run(t, events))
  {
    hide Sound, Limited, Step, Allowed;
    if events != [] {
      var init, last := events[..|events| - 1], events[|events| - 1];
      assert forall n :: 0 <= n < |init| ==> init[..n] == events[..n];
      RunKeepsLimit(t, init);
      RunSound(t, init);
      LimitKeptIff(Run(t, init), last);
    }
  }

  ghost predicate AlwaysLimited(t: Tables, events: seq<Event>) {
    forall n :: 0 <= n <= |events| ==> Limited(Run(t, events[..n]))
  }

  /** The limits hold at every point of a run exactly when every step is allowed. */
  lemma AlwaysLimitedIff(t: Tables, events: seq<Event>)
    requires Sound(t) && Limited(t)
    ensures AlwaysLimited(t, events) <==> AllAllowed(t, events)
  {
    hide Sound, Limited, Step, Allowed;
    if AllAllowed(t, events) {
      forall n | 0 <= n <= |events|
        ensures Limited(Run(t, events[..n]))
      {
        assert forall m :: 0 <= m < n ==> events[..n][..m] == events[..m];
        RunKeepsLimit(t, events[..n]);
      }
    }
    if AlwaysLimited(t, events) {
      forall n | 0 <= n < |events|
        ensures Allowed(Run(t, events[..n]), events[n])
      {
        assert events[..n + 1][..n] == events[..n];
        assert Limited(Run(t, events[..n])) && Limited(Run(t, events[..n + 1]));
        RunSound(t, events[..n]);
        LimitKeptIff(Run(t, events[..n]), events[n]);
      }
    }
  }

  /** Every use is served through validation, and a limit is raised, kept or lifted. */
  ghost predicate NotLowered(t: Tables, e: Event) {
    match e.op
    case Record(u) => false
    case Update(id, p) =>
      HasToken(t, id) && p.maxIPs.Some? ==>
        p.maxIPs.value <= 0 || 0 < t.tokens[TokenIndex(t, id)].maxIPs <= p.maxIPs.value
    case _ => true
  }

  lemma NotLoweredAllowed(t: Tables, e: Event)
    requires Limited(t) && NotLowered(t, e)
    ensures Allowed(t, e)
  {
    hide BindingCount;
    if e.op.Update? && HasToken(t, e.op.id) {
      assert WithinLimit(t, t.tokens[TokenIndex(t, e.op.id)]);
    }
  }

  ghost predicate NeverLowered(t: Tables, events: seq<Event>) {
    forall n :: 0 <= n < |events| ==> NotLowered(Run(t, events[..n]), events[n])
  }

  /** When each use is recorded right after acceptance and no limit is ever lowered, the distinct
      addresses of a token never exceed its limit. */
  lemma {:induction false} ServedRunsKeepLimit(t: Tables, events: seq<Event>)
    requires Sound(t) && Limited(t) && NeverLowered(t, events)
    ensures Limited(Run(t, events)) && AllAllowed(t, events)
  {
    hide Sound, Limited, Step, Allowed, NotLowered;
    if events != [] {
      var m := |events| - 1;
      var init := events[..m];
      assert forall n :: 0 <= n < m ==> init[..n] == events[..n];
      ServedRunsKeepLimit(t, init);
      NotLoweredAllowed(Run(t, init), events[m]);
      RunSound(t, init);
      LimitKeptIff(Run(t, init), events[m]);
      forall n | 0 <= n < |events|
        ensures Allowed(Run(t, events[..n]), events[n])
      {
        assert n < m ==> Allowed(Run(t, init[..n]), init[n]);
      }
    }
  }

  // ---- what the counters mean ----

  function LoggedIPs(logs: seq<UsageLog>, id: string): set<string> {
    set l | l in logs && l.tokenID == id :: l.ip
  }

  function BoundIPs(bindings: seq<Binding>, id: string): set<string> {
    set b | b in bindings && b.tokenID == id :: b.ip
  }

  lemma BoundIPsAppend(init: seq<Binding>, last: Binding, id: string)
    requires Distinct(init + [last], BindingPair)
    ensures Distinct(init, BindingPair)
    ensures BoundIPs(init + [last], id) == BoundIPs(init, id) + (if last.tokenID == id then {last.ip} else {})
    ensures last.tokenID == id ==> last.ip !in BoundIPs(init, id)
  {
    var bindings := init + [last];
    forall j | 0 <= j < |init|
      ensures BindingPair(init[j]) != BindingPair(last)
    {
      assert bindings[j] == init[j] && bindings[|init|] == last;
    }
    forall i, j | 0 <= i < j < |init|
      ensures BindingPair(init[i]) != BindingPair(init[j])
    {
      assert bindings[i] == init[i] && bindings[j] == init[j];
    }
    assert forall b :: b in bindings <==> b in init || b == last;
  }

  lemma {:induction false} CountIsDistinct(bindings: seq<Binding>, id: string)
    requires Distinct(bindings, BindingPair)
    ensures Sum(bindings, BoundTo(id)) == |BoundIPs(bindings, id)|
  {
    if bindings != [] {
      var init, last := bindings[..|bindings| - 1], bindings[|bindings| - 1];
      assert bindings == init + [last];
      BoundIPsAppend(init, last, id);
      hide Distinct, BoundIPs, Sum;
      CountIsDistinct(init, id);
      SumAppend(init, BoundTo(id), last);
      assert BoundIPs(init, id) + {} == BoundIPs(init, id);
    }
  }

  lemma {:induction false} SumPositive(logs: seq<UsageLog>, f: UsageLog -> int)
    requires (forall l :: l in logs ==> f(l) >= 0) && Sum(logs, f) > 0
    ensures exists l :: l in logs && f(l) > 0
  {
    if forall l :: l in logs ==> f(l) == 0 {
      SumZero(logs, f);
    }
  }

  /** Every binding was used: its request count is positive. */
  ghost predicate BindingsUsed(t: Tables) {
    forall b :: b in t.bindings ==> b.requestCount > 0
  }

  lemma {:induction false} RunBindingsUsed(t: Tables, events: seq<Event>)
    requires BindingsUsed(t)
    ensures BindingsUsed(Run(t, events))
  {
    hide VerdictFor, Created, CanRecord, TokenIndex, BindingIndex, UsedRow;
    if events != [] {
      RunBindingsUsed(t, events[..|events| - 1]);
      var d := Run(t, events[..|events| - 1]);
      var e := events[|events| - 1];
      match e.op
      case Delete(id) => FilterMembers(d.bindings, (b: Binding) => b.tokenID != id);
      case Create(r) => CreateBindings(d, r, e.now);
      case Serve(token, u) =>
        if VerdictFor(d, token, u.ip, e.now).Accepted? {
          AcceptedRow(d, token, u.ip, e.now);
        }
      case _ =>
    }
  }

  lemma CreateBindings(t: Tables, r: NewToken, now: int)
    ensures Created(t, r, now).bindings == t.bindings
  {}

  /** The bindings of a token are the distinct addresses in its log. */
  lemma BindingsAreLoggedIPs(t: Tables, id: string)
    requires Sound(t) && BindingsUsed(t)
    ensures BindingCount(t, id) == |LoggedIPs(t.logs, id)|
    ensures forall ip :: Bound(t, id, ip) <==> ip in LoggedIPs(t.logs, id)
  {
    CountIsDistinct(t.bindings, id);
    forall ip
      ensures Bound(t, id, ip) <==> ip in LoggedIPs(t.logs, id)
      ensures Bound(t, id, ip) <==> ip in BoundIPs(t.bindings, id)
    {
      PairListed(t, id, ip);
      if b :| b in t.bindings && b.tokenID == id && b.ip == ip {
        assert BindingCounted(t, b);
        SumPositive(t.logs, UsesFrom(id, ip));
      }
    }
    assert BoundIPs(t.bindings, id) == LoggedIPs(t.logs, id);
  }

  /** Known, not past its expiry, outside its curfew, and either without a limit, from an address
      already in the token's log, or with fewer distinct addresses in that log than the limit; a
      number of addresses beyond 32 bits cannot be read and counts as none. */
  ghost predicate Admits(t: Tables, k: UserToken, token: string, ip: string, now: int) {
    && k.token == token
    && (k.expiresAt.Some? ==> now <= k.expiresAt.value)
    && !InCurfew(k.curfewStart, k.curfewEnd, now)
    && RoomFor(t, k, ip)
  }

  ghost predicate RoomFor(t: Tables, k: UserToken, ip: string) {
    var used := LoggedIPs(t.logs, k.id);
    k.maxIPs <= 0 || ip in used || |used| < k.maxIPs || |used| > MAX_INT32
  }

  lemma OnlyRow(t: Tables, token: string)
    requires Keyed(t)
    ensures forall k :: k in t.tokens && k.token == token ==>
            ValueIndex(t, token) < |t.tokens| && k == t.tokens[ValueIndex(t, token)]
  {
    var i := ValueIndex(t, token);
    forall k | k in t.tokens && k.token == token
      ensures i < |t.tokens| && k == t.tokens[i]
    {
      var j :| 0 <= j < |t.tokens| && t.tokens[j] == k;
      assert i < j ==> TokenValue(t.tokens[i]) != TokenValue(t.tokens[j]);
    }
  }

  /** The IP clause read off the log. */
  lemma IPAllowedByLog(t: Tables, k: UserToken, ip: string)
    requires Sound(t) && BindingsUsed(t)
    ensures IPAllowed(t, k, ip) <==> RoomFor(t, k, ip)
  {
    BindingsAreLoggedIPs(t, k.id);
    hide Sound, BindingsUsed, Bound, LoggedIPs, BindingCount;
  }

  /** Acceptance in terms of the tokens and the log alone. */
  lemma AcceptedIff(events: seq<Event>, token: string, ip: string, now: int)
    ensures var t := Run(EMPTY, events);
            VerdictFor(t, token, ip, now).Accepted? <==> exists k :: k in t.tokens && Admits(t, k, token, ip, now)
  {
    hide InCurfew, Run, Sound, RoomFor, IPAllowed;
    var t := Run(EMPTY, events);
    ReachableSound(events);
    SoundIsKeyed(t);
    RunBindingsUsed(EMPTY, events);
    OnlyRow(t, token);
    var i := ValueIndex(t, token);
    hide ValueIndex, Keyed, BindingsUsed;
    if i < |t.tokens| {
      var k := t.tokens[i];
      IPAllowedByLog(t, k, ip);
      assert VerdictFor(t, token, ip, now).Accepted? <==> Admits(t, k, token, ip, now);
    }
  }

  lemma SoundIsKeyed(t: Tables)
    requires Sound(t)
    ensures Keyed(t)
  {}

  // ---- facts about single operations ----

  /** Being disabled is not looked at: no change to enabled, name or description changes a verdict. */
  lemma EnabledIgnored(t: Tables, id: string, p: Patch, token: string, ip: string, now: int, at: int)
    requires p.maxIPs.None? && p.curfewStart.None? && p.curfewEnd.None?
    ensures VerdictFor(Updated(t, id, p, now), token, ip, at) == VerdictFor(t, token, ip, at)
  {
    hide InCurfew, BindingCount, Bound, ReadInt32;
    UpdatedRows(t, id, p, now);
    var d := Updated(t, id, p, now);
    hide Updated;
    SameValueIndex(t, d, token);
    hide ValueIndex;
    forall k: UserToken
      ensures IPAllowed(d, k, ip) == IPAllowed(t, k, ip) && BindingCount(d, k.id) == BindingCount(t, k.id)
    {
      SameBindings(t, d, k, ip);
    }
  }

  lemma UpdatedRows(t: Tables, id: string, p: Patch, now: int)
    requires p.maxIPs.None? && p.curfewStart.None? && p.curfewEnd.None?
    ensures var d := Updated(t, id, p, now);
            && d.bindings == t.bindings && |d.tokens| == |t.tokens|
            && forall n :: 0 <= n < |t.tokens| ==>
                 && d.tokens[n].id == t.tokens[n].id && d.tokens[n].token == t.tokens[n].token
                 && d.tokens[n].expiresAt == t.tokens[n].expiresAt && d.tokens[n].maxIPs == t.tokens[n].maxIPs
                 && d.tokens[n].curfewStart == t.tokens[n].curfewStart && d.tokens[n].curfewEnd == t.tokens[n].curfewEnd
  {}

  lemma SameValueIndex(t: Tables, d: Tables, token: string)
    requires |d.tokens| == |t.tokens| && forall n :: 0 <= n < |t.tokens| ==> d.tokens[n].token == t.tokens[n].token
    ensures ValueIndex(d, token) == ValueIndex(t, token)
  {
    var i, j := ValueIndex(t, token), ValueIndex(d, token);
    if i < |t.tokens| {
      assert d.tokens[i].token == token;
    }
    if j < |d.tokens| {
      assert t.tokens[j].token == token;
    }
  }

  lemma SameBindings(t: Tables, d: Tables, k: UserToken, ip: string)
    requires d.bindings == t.bindings
    ensures IPAllowed(d, k, ip) == IPAllowed(t, k, ip) && BindingCount(d, k.id) == BindingCount(t, k.id)
  {
    hide Sum;
  }

  /** After a renewal the token is past its expiry exactly when a day, a week or thirty days,
      as asked, have gone by; any other kind, "custom" included, never expires. */
  lemma RenewalExpiry(t: Tables, id: string, kind: string, now: int, at: int, ip: string)
    requires Keyed(t) && HasToken(t, id)
    ensures var row := t.tokens[TokenIndex(t, id)];
            VerdictFor(Renewed(t, id, kind, now), row.token, ip, at) == Refused(Expired) <==>
            || (kind == "day" && at > now + 86_400)
            || (kind == "week" && at > now + 604_800)
            || (kind == "month" && at > now + 2_592_000)
  {
    hide InCurfew, Sum;
    var d, i := Renewed(t, id, kind, now), TokenIndex(t, id);
    var j := ValueIndex(d, t.tokens[i].token);
    assert d.tokens[i].token == t.tokens[i].token;
    assert j < i ==> TokenValue(t.tokens[j]) != TokenValue(t.tokens[i]);
  }

  /** A new token is past its expiry exactly after its day, week or thirty days, or after the
      custom moment given; without either it never is. */
  lemma CreationExpiry(t: Tables, r: NewToken, now: int, at: int, ip: string)
    requires CanCreate(t, r)
    ensures VerdictFor(Created(t, r, now), r.token, ip, at) == Refused(Expired) <==>
            || (r.expiresType == "day" && at > now + 86_400)
            || (r.expiresType == "week" && at > now + 604_800)
            || (r.expiresType == "month" && at > now + 2_592_000)
            || (r.expiresType == "custom" && r.customExpiresAt.Some? && at > r.customExpiresAt.value)
  {
    hide InCurfew, Sum;
    var d := Created(t, r, now);
    assert d.tokens[|t.tokens|] == TokenRow(r, now);
    assert ValueIndex(d, r.token) == |t.tokens|;
  }

  predicate Overflows(l: UsageLog) {
    !(MIN_INT32 <= l.inputTokens + l.outputTokens <= MAX_INT32)
  }

  /** With non-negative token counts the stored total never exceeds the true one, and equals it
      exactly when no single use of the token overflows 32 bits. */
  lemma {:induction false} TotalExactIff(logs: seq<UsageLog>, id: string)
    requires forall l :: l in logs ==> l.inputTokens >= 0 && l.outputTokens >= 0
    ensures Sum(logs, Spent(id)) <= Sum(logs, SpentExactly(id))
    ensures Sum(logs, Spent(id)) == Sum(logs, SpentExactly(id)) <==>
            forall l :: l in logs && l.tokenID == id ==> !Overflows(l)
  {
    if logs != [] {
      var init, last := logs[..|logs| - 1], logs[|logs| - 1];
      TotalExactIff(init, id);
      assert logs == init + [last];
      assert forall l :: l in logs <==> l in init || l == last;
    }
  }
}
