/** Candidate collection, ordering and selection for one request. */
module Dispatch {
  import opened Wrappers
  import opened Text
  import opened Search
  import opened StableSort
  import opened Timestamps
  import opened Domain
  import opened Health
  import opened AccountStore
  import opened Access

  datatype SkipReason = Eligible | SkipDisabled | SkipInvalid | SkipCooldown | SkipExpired | SkipModel

  datatype Candidate = Candidate(
    accountID: string,
    provider: string,
    upstreamModel: string,
    priority: int,
    weight: int,
    accountStatus: AccountStatus,
    expiresAt: Option<Time>,
    cooldownUntil: Option<Time>,
    canRefresh: bool,
    consecutiveFails: nat,
    lastRefreshError: string,
    lastFailureReason: string,
    skipReason: SkipReason)

  datatype DispatchTrace = DispatchTrace(
    modelAlias: string,
    apiKey: APIKey,
    package: ServicePackage,
    candidates: seq<Candidate>,
    selected: Candidate)

  const UNAVAILABLE := "no available upstream account for alias under current package"

  // ---- what one (target, account) pair contributes ----

  function SkipReasonFor(a: UpstreamAccount, t: ModelTarget, now: Time): SkipReason {
    if a.status == Disabled then SkipDisabled
    else if a.status == Invalid then SkipInvalid
    else if AccountInCooldown(a, now) then SkipCooldown
    else if AccountExpired(a, now) && !AccountCanRefresh(a) then SkipExpired
    else if t.upstreamModel !in a.supportsModels then SkipModel
    else Eligible
  }

  function Build(a: UpstreamAccount, t: ModelTarget, now: Time): Candidate {
    Candidate(a.id, a.provider, t.upstreamModel, a.priority + t.priority, a.weight, a.status,
              AccountExpiresAt(a), AccountCooldownUntil(a), AccountCanRefresh(a), AccountConsecutiveFailures(a),
              MetaText(a.meta, LastRefreshError), MetaText(a.meta, LastFailureReason), SkipReasonFor(a, t, now))
  }

  // ---- what the classification means ----

  /** A stored deadline lies ahead. */
  ghost predicate Cooling(a: UpstreamAccount, now: Time) {
    exists d :: Reads(a.meta, CooldownUntil, d) && now < d
  }

  /** A stored expiry has come and nothing can renew it. */
  ghost predicate Lapsed(a: UpstreamAccount, now: Time) {
    (exists e :: Reads(a.meta, ExpiresAt, e) && e <= now) && !Renewable(a)
  }

  predicate Sells(a: UpstreamAccount, t: ModelTarget) {
    exists k :: 0 <= k < |a.supportsModels| && a.supportsModels[k] == t.upstreamModel
  }

  /** What an account must be to serve the target, read off its row. */
  ghost predicate Usable(a: UpstreamAccount, t: ModelTarget, now: Time) {
    && a.status != Disabled && a.status != Invalid
    && !Cooling(a, now) && !Lapsed(a, now) && Sells(a, t)
  }

  /** The reason that is given, for each reason: the first that applies. */
  ghost predicate Explains(r: SkipReason, a: UpstreamAccount, t: ModelTarget, now: Time) {
    match r
    case SkipDisabled => a.status == Disabled
    case SkipInvalid => a.status == Invalid
    case SkipCooldown => a.status != Disabled && a.status != Invalid && Cooling(a, now)
    case SkipExpired => a.status != Disabled && a.status != Invalid && !Cooling(a, now) && Lapsed(a, now)
    case SkipModel =>
      && a.status != Disabled && a.status != Invalid
      && !Cooling(a, now) && !Lapsed(a, now) && !Sells(a, t)
    case Eligible => Usable(a, t, now)
  }

  lemma ReasonIff(a: UpstreamAccount, t: ModelTarget, now: Time)
    ensures forall r: SkipReason :: SkipReasonFor(a, t, now) == r <==> Explains(r, a, t, now)
  {
    TimesIff(a, now);
    RenewableIff(a);
    hide AccountInCooldown, AccountExpired, AccountCanRefresh, Reads, Renewable;
  }

  // ---- which pairs are collected ----

  /** Positions of a target in the policy and of an account in the table. */
  datatype Pair = Pair(target: nat, account: nat)

  datatype Request = Request(
    accounts: seq<UpstreamAccount>,
    targets: seq<ModelTarget>,
    package: ServicePackage,
    alias: string,
    now: Time)

  /** Later access entries for a provider replace earlier ones. */
  ghost predicate ProviderAllowed(access: seq<ProviderAccess>, provider: string, alias: string) {
    exists i :: && 0 <= i < |access| && access[i].provider == provider && alias in access[i].models
                && forall j :: i < j < |access| ==> access[j].provider != provider
  }

  ghost predicate Permitted(q: Request, p: Pair) {
    && p.target < |q.targets| && p.account < |q.accounts|
    && ProviderAllowed(q.package.providerAccess, q.targets[p.target].provider, q.alias)
    && q.accounts[p.account].provider == q.targets[p.target].provider
  }

  /** Target `a` is tried before target `b`. */
  predicate TargetBefore(targets: seq<ModelTarget>, a: nat, b: nat)
    requires a < |targets| && b < |targets|
  {
    targets[a].priority > targets[b].priority || (targets[a].priority == targets[b].priority && a < b)
  }

  /** Without cross-provider fallback only the first target with any permitted account counts. */
  ghost predicate Collected(q: Request, p: Pair) {
    && Permitted(q, p)
    && (q.package.allowCrossProviderFallback ||
        forall p' :: Permitted(q, p') ==> !TargetBefore(q.targets, p'.target, p.target))
  }

  // ---- the order of candidates ----

  predicate InRange(q: Request, p: Pair) {
    p.target < |q.targets| && p.account < |q.accounts|
  }

  function CandidateAt(q: Request, p: Pair): Candidate
    requires InRange(q, p)
  {
    Build(q.accounts[p.account], q.targets[p.target], q.now)
  }

  predicate HigherRank(x: Candidate, y: Candidate) {
    if x.priority == y.priority then x.weight > y.weight else x.priority > y.priority
  }

  predicate ScannedBefore(q: Request, a: Pair, b: Pair)
    requires a.target < |q.targets| && b.target < |q.targets|
  {
    TargetBefore(q.targets, a.target, b.target) || (a.target == b.target && a.account < b.account)
  }

  /** By the sum of the two priorities, then by weight, both descending; then by the target's
      priority, descending, by target and by account. */
  predicate PairBefore(q: Request, x: Pair, y: Pair)
    requires InRange(q, x) && InRange(q, y)
  {
    var a, b := q.accounts[x.account], q.accounts[y.account];
    var t, u := q.targets[x.target], q.targets[y.target];
    if a.priority + t.priority != b.priority + u.priority then a.priority + t.priority > b.priority + u.priority
    else if a.weight != b.weight then a.weight > b.weight
    else if t.priority != u.priority then t.priority > u.priority
    else if x.target != y.target then x.target < y.target
    else x.account < y.account
  }

  /** Sorting by rank what was scanned in order gives that order. */
  lemma PairBeforeIff(q: Request, x: Pair, y: Pair)
    requires InRange(q, x) && InRange(q, y)
    ensures PairBefore(q, x, y) <==>
            || HigherRank(CandidateAt(q, x), CandidateAt(q, y))
            || (!HigherRank(CandidateAt(q, y), CandidateAt(q, x)) && ScannedBefore(q, x, y))
  {
    hide SkipReasonFor, AccountExpiresAt, AccountCooldownUntil, AccountCanRefresh, AccountConsecutiveFailures, MetaText;
  }

  /** `cs` lists exactly the collected pairs, in order. */
  ghost predicate ListsCandidates(q: Request, cs: seq<Candidate>, origin: seq<Pair>) {
    && |cs| == |origin|
    && (forall p :: p in origin <==> Collected(q, p))
    && (forall i :: 0 <= i < |cs| ==> InRange(q, origin[i]) && cs[i] == CandidateAt(q, origin[i]))
    && (forall i, j :: 0 <= i < j < |cs| ==> PairBefore(q, origin[i], origin[j]))
  }

  ghost predicate FirstEligible(cs: seq<Candidate>, selected: Candidate) {
    exists k :: && 0 <= k < |cs| && cs[k] == selected && selected.skipReason == Eligible
                && forall j :: 0 <= j < k ==> cs[j].skipReason != Eligible
  }

  function RequestFor(data: PlatformData, alias: string, rawKey: string, now: Time): Request
    requires Accepts(data, rawKey, now) && PolicyIndex(data, alias) < |data.policies|
  {
    Request(data.accounts, data.policies[PolicyIndex(data, alias)].targets, GrantOf(data, rawKey, now).package, alias,
        now)
  }

  function PolicyIndex(data: PlatformData, alias: string): (i: nat)
    ensures i <= |data.policies|
  {
    FirstIndex(data.policies, (p: ModelAliasPolicy) => p.alias == alias)
  }

  /** What a dispatch trace for this request is. */
  ghost predicate IsTrace(data: PlatformData, alias: string, rawKey: string, now: Time, trace: DispatchTrace) {
    && Accepts(data, rawKey, now) && PolicyIndex(data, alias) < |data.policies|
    && trace.modelAlias == alias
    && trace.apiKey == GrantOf(data, rawKey, now).key && trace.package == GrantOf(data, rawKey, now).package
    && (exists origin :: ListsCandidates(RequestFor(data, alias, rawKey, now), trace.candidates, origin))
    && FirstEligible(trace.candidates, trace.selected)
  }

  ghost predicate NoneEligible(q: Request) {
    forall p :: Collected(q, p) ==> !Usable(q.accounts[p.account], q.targets[p.target], q.now)
  }

  // ---- the loops ----

  method AllowedProviders(access: seq<ProviderAccess>, alias: string) returns (allowed: map<string, ProviderAccess>)
    ensures forall provider :: (provider in allowed && alias in allowed[provider].models) <==>
            ProviderAllowed(access, provider, alias)
  {
    allowed := map[];
    ghost var last: map<string, nat> := map[];
    for i := 0 to |access|
      invariant allowed.Keys == last.Keys
      invariant forall p :: p in last ==> last[p] < i && access[last[p]] == allowed[p] && allowed[p].provider == p
      invariant forall p, j :: p in last && last[p] < j < i ==> access[j].provider != p
      invariant forall j :: 0 <= j < i ==> access[j].provider in last
    {
      allowed := allowed[access[i].provider := access[i]];
      last := last[access[i].provider := i];
    }
    forall provider
      ensures (provider in allowed && alias in allowed[provider].models) <==> ProviderAllowed(access, provider, alias)
    {
      if ProviderAllowed(access, provider, alias) {
        var i :| && 0 <= i < |access| && access[i].provider == provider && alias in access[i].models
                 && forall j :: i < j < |access| ==> access[j].provider != provider;
        assert i == last[provider];
      }
    }
  }

  /** One candidate for each row of the target's provider, in table order; `rows` tells which. */
  ghost predicate ListsRows(accounts: seq<UpstreamAccount>, target: ModelTarget, now: Time, cs: seq<Candidate>,
                            rows: seq<nat>) {
    && |cs| == |rows|
    && (forall a: nat :: a in rows <==> a < |accounts| && accounts[a].provider == target.provider)
    && (forall i :: 0 <= i < |cs| ==> rows[i] < |accounts| && cs[i] == Build(accounts[rows[i]], target, now))
    && (forall i, j :: 0 <= i < j < |rows| ==> rows[i] < rows[j])
  }

  /** The inner loop: one target against every account, in table order. */
  method CollectTarget(accounts: seq<UpstreamAccount>, target: ModelTarget, now: Time)
    returns (cs: seq<Candidate>, ghost rows: seq<nat>)
    ensures ListsRows(accounts, target, now, cs, rows)
    ensures exists rs: seq<nat> :: ListsRows(accounts, target, now, cs, rs)
  {
    hide Build;
    cs, rows := [], [];
    for k := 0 to |accounts|
      invariant |cs| == |rows|
      invariant forall a: nat :: a in rows <==> a < k && accounts[a].provider == target.provider
      invariant forall i :: 0 <= i < |cs| ==> rows[i] < k && cs[i] == Build(accounts[rows[i]], target, now)
      invariant forall i, j :: 0 <= i < j < |rows| ==> rows[i] < rows[j]
    {
      if accounts[k].provider == target.provider {
        cs := cs + [Build(accounts[k], target, now)];
        rows := rows + [k];
      }
    }
  }

  ghost predicate InScanOrder(q: Request, cs: seq<Candidate>, pairs: seq<Pair>) {
    && |cs| == |pairs|
    && (forall i :: 0 <= i < |pairs| ==> InRange(q, pairs[i]) && cs[i] == CandidateAt(q, pairs[i]))
    && (forall i, j :: 0 <= i < j < |pairs| ==> ScannedBefore(q, pairs[i], pairs[j]))
  }

  /** The pairs gathered from the first `n` targets of the sorted list. */
  ghost predicate Gathered(q: Request, perm: seq<nat>, n: nat, cs: seq<Candidate>, pairs: seq<Pair>) {
    && n <= |perm|
    && InScanOrder(q, cs, pairs)
    && (forall p :: p in pairs <==> Permitted(q, p) && p.target in perm[..n])
  }

  ghost predicate SortsTargets(q: Request, perm: seq<nat>) {
    && |perm| == |q.targets|
    && (forall i :: 0 <= i < |perm| ==> perm[i] < |q.targets|)
    && (forall t: nat :: t < |q.targets| ==> t in perm)
    && (forall i, j :: 0 <= i < j < |perm| ==> TargetBefore(q.targets, perm[i], perm[j]))
  }

  function Tagged(target: nat, rows: seq<nat>): (pairs: seq<Pair>)
    ensures |pairs| == |rows|
    ensures forall i :: 0 <= i < |rows| ==> pairs[i] == Pair(target, rows[i])
  {
    seq(|rows|, i requires 0 <= i < |rows| => Pair(target, rows[i]))
  }

  lemma TaggedMember(target: nat, rows: seq<nat>, p: Pair)
    ensures p in Tagged(target, rows) <==> p.target == target && p.account in rows
  {
    if p.target == target && p.account in rows {
      var i :| 0 <= i < |rows| && rows[i] == p.account;
      assert Tagged(target, rows)[i] == p;
    }
  }

  lemma TaggedLast(q: Request, perm: seq<nat>, n: nat, p: Pair, t: nat)
    requires SortsTargets(q, perm) && n < |perm| && t in perm[..n]
    ensures t < |q.targets| && TargetBefore(q.targets, t, perm[n])
  {
    var m :| 0 <= m < n && perm[m] == t;
  }

  lemma GatherMembers(q: Request, perm: seq<nat>, n: nat, pairs: seq<Pair>, rows: seq<nat>)
    requires n < |perm| && perm[n] < |q.targets|
    requires forall p :: p in pairs <==> Permitted(q, p) && p.target in perm[..n]
    requires ProviderAllowed(q.package.providerAccess, q.targets[perm[n]].provider, q.alias)
    requires forall a: nat :: a in rows <==> a < |q.accounts| && q.accounts[a].provider == q.targets[perm[n]].provider
    ensures forall p :: p in pairs + Tagged(perm[n], rows) <==> Permitted(q, p) && p.target in perm[..n + 1]
  {
    hide ProviderAllowed, Tagged;
    forall p
      ensures p in pairs + Tagged(perm[n], rows) <==> Permitted(q, p) && p.target in perm[..n + 1]
    {
      assert perm[..n + 1] == perm[..n] + [perm[n]];
      TaggedMember(perm[n], rows, p);
    }
  }

  lemma GatherTarget(q: Request, perm: seq<nat>, n: nat, cs: seq<Candidate>, pairs: seq<Pair>, more: seq<Candidate>,
                     rows: seq<nat>)
    requires SortsTargets(q, perm) && n < |perm| && Gathered(q, perm, n, cs, pairs)
    requires ProviderAllowed(q.package.providerAccess, q.targets[perm[n]].provider, q.alias)
    requires ListsRows(q.accounts, q.targets[perm[n]], q.now, more, rows)
    ensures Gathered(q, perm, n + 1, cs + more, pairs + Tagged(perm[n], rows))
  {
    GatherMembers(q, perm, n, pairs, rows);
    hide Build, Permitted, TargetBefore, Tagged;
    forall i | 0 <= i < |pairs|
      ensures TargetBefore(q.targets, pairs[i].target, perm[n])
    {
      assert pairs[i] in pairs;
      TaggedLast(q, perm, n, pairs[i], pairs[i].target);
    }
    AppendInOrder(q, cs, pairs, more, Tagged(perm[n], rows), perm[n]);
  }

  lemma AppendInOrder(q: Request, cs: seq<Candidate>, pairs: seq<Pair>, more: seq<Candidate>, extra: seq<Pair>, t: nat)
    requires InScanOrder(q, cs, pairs) && |more| == |extra| && t < |q.targets|
    requires forall i :: 0 <= i < |extra| ==>
             InRange(q, extra[i]) && more[i] == CandidateAt(q, extra[i]) && extra[i].target == t
    requires forall i, j :: 0 <= i < j < |extra| ==> extra[i].account < extra[j].account
    requires forall i :: 0 <= i < |pairs| ==> TargetBefore(q.targets, pairs[i].target, t)
    ensures InScanOrder(q, cs + more, pairs + extra)
  {
    hide CandidateAt, TargetBefore;
  }

  lemma SkipTarget(q: Request, perm: seq<nat>, n: nat, cs: seq<Candidate>, pairs: seq<Pair>)
    requires SortsTargets(q, perm) && n < |perm| && Gathered(q, perm, n, cs, pairs)
    requires !ProviderAllowed(q.package.providerAccess, q.targets[perm[n]].provider, q.alias)
    ensures Gathered(q, perm, n + 1, cs, pairs)
  {
    hide CandidateAt, ProviderAllowed, TargetBefore;
    assert perm[..n + 1] == perm[..n] + [perm[n]];
  }

  /** Scanning stopped at `n` because every target was seen, or because fallback is off
      and the last target scanned was the first to contribute. */
  ghost predicate ScanComplete(q: Request, perm: seq<nat>, n: nat, pairs: seq<Pair>) {
    || n == |perm|
    || (&& 0 < n < |perm| && !q.package.allowCrossProviderFallback && pairs != []
        && forall p :: p in pairs ==> p.target == perm[n - 1])
  }

  lemma ScanCollects(q: Request, perm: seq<nat>, n: nat, cs: seq<Candidate>, pairs: seq<Pair>)
    requires SortsTargets(q, perm) && Gathered(q, perm, n, cs, pairs) && ScanComplete(q, perm, n, pairs)
    requires !q.package.allowCrossProviderFallback ==> forall a, b :: a in pairs && b in pairs ==> a.target == b.target
    ensures forall p :: p in pairs <==> Collected(q, p)
  {
    hide CandidateAt, ScannedBefore;
    assert perm[..|perm|] == perm;
    forall p | Permitted(q, p) && p !in pairs
      ensures !Collected(q, p)
    {
      assert p.target !in perm[..n];
      assert pairs[0] in pairs;
      LaterTarget(q, perm, n, pairs[0].target, p.target);
    }
    forall p, p' | p in pairs && Permitted(q, p') && !q.package.allowCrossProviderFallback
      ensures !TargetBefore(q.targets, p'.target, p.target)
    {
      if p'.target in perm[..n] {
        assert p' in pairs;
      } else {
        LaterTarget(q, perm, n, p.target, p'.target);
      }
    }
  }

  lemma LaterTarget(q: Request, perm: seq<nat>, n: nat, early: nat, late: nat)
    requires SortsTargets(q, perm) && n <= |perm|
    requires early in perm[..n] && late < |q.targets| && late !in perm[..n]
    ensures early < |q.targets|
    ensures TargetBefore(q.targets, early, late) && !TargetBefore(q.targets, late, early)
  {
    assert late in perm;
    var i :| 0 <= i < n && perm[i] == early;
    var j :| 0 <= j < |perm| && perm[j] == late;
    forall m | 0 <= m < n
      ensures perm[m] != late
    {
      assert perm[m] in perm[..n];
    }
  }

  lemma RankIsWeakOrder()
    ensures StrictWeakOrder(HigherRank)
  {}

  /** Sorting the scanned candidates by rank gives the candidate order. */
  lemma SortedList(q: Request, cs: seq<Candidate>, pairs: seq<Pair>, sorted: seq<Candidate>, perm: seq<nat>)
    requires InScanOrder(q, cs, pairs) && forall p :: p in pairs <==> Collected(q, p)
    requires IsStableSort(cs, HigherRank, sorted, perm)
    ensures ListsCandidates(q, sorted, seq(|perm|, i requires 0 <= i < |perm| => pairs[perm[i]]))
  {
    hide CandidateAt, HigherRank, ScannedBefore, Collected, PairBefore;
    var origin := seq(|perm|, i requires 0 <= i < |perm| => pairs[perm[i]]);
    forall p
      ensures p in origin <==> Collected(q, p)
    {
      if p in pairs {
        var k :| 0 <= k < |pairs| && pairs[k] == p;
        assert k in perm;
        var i :| 0 <= i < |perm| && perm[i] == k;
        assert origin[i] == p;
      }
    }
    forall i, j | 0 <= i < j < |origin|
      ensures PairBefore(q, origin[i], origin[j])
    {
      assert Precedes(cs, HigherRank, perm[i], perm[j]);
      PairBeforeIff(q, origin[i], origin[j]);
    }
  }

  lemma SortedTargets(q: Request, targets: seq<ModelTarget>, perm: seq<nat>)
    requires IsStableSort(q.targets, (x: ModelTarget, y: ModelTarget) => x.priority > y.priority, targets, perm)
    ensures SortsTargets(q, perm)
  {
    forall i, j | 0 <= i < j < |perm|
      ensures TargetBefore(q.targets, perm[i], perm[j])
    {
      assert Precedes(q.targets, (x: ModelTarget, y: ModelTarget) => x.priority > y.priority, perm[i], perm[j]);
    }
  }

  lemma NoneScanned(q: Request)
    ensures InScanOrder(q, [], [])
  {}

  /** The scan of all collected pairs, in the order of the loops. */
  ghost predicate ScansCollected(q: Request, cs: seq<Candidate>, pairs: seq<Pair>) {
    InScanOrder(q, cs, pairs) && forall p :: p in pairs <==> Collected(q, p)
  }

  /** The nested loops over sorted targets and accounts, with the early exit. */
  method Collect(q: Request) returns (cs: seq<Candidate>, ghost pairs: seq<Pair>)
    ensures ScansCollected(q, cs, pairs)
    ensures exists ps: seq<Pair> :: ScansCollected(q, cs, ps)
  {
    hide Build, ProviderAllowed;
    var allowed := AllowedProviders(q.package.providerAccess, q.alias);
    var targets, perm := SliceStable(q.targets, (x: ModelTarget, y: ModelTarget) => x.priority > y.priority);
    SortedTargets(q, targets, perm);
    hide ListsRows, InScanOrder, SortsStably, IsStableSort, Precedes;
    cs, pairs := [], [];
    NoneScanned(q);
    var n := 0;
    var stop := false;
    while n < |targets| && !stop
      invariant n <= |targets|
      invariant Gathered(q, perm, n, cs, pairs)
      invariant stop ==> ScanComplete(q, perm, n, pairs)
      invariant !stop && !q.package.allowCrossProviderFallback ==> pairs == []
      invariant !q.package.allowCrossProviderFallback ==> forall a, b :: a in pairs && b in pairs ==>
                a.target == b.target
    {
      var target := targets[n];
      if target.provider in allowed && q.alias in allowed[target.provider].models {
        var more, rows := CollectTarget(q.accounts, target, q.now);
        GatherTarget(q, perm, n, cs, pairs, more, rows);
        cs := cs + more;
        pairs := pairs + Tagged(perm[n], rows);
        stop := |cs| > 0 && !q.package.allowCrossProviderFallback;
      } else {
        SkipTarget(q, perm, n, cs, pairs);
      }
      n := n + 1;
    }
    ScanCollects(q, perm, n, cs, pairs);
  }

  lemma EligibleIff(q: Request, p: Pair)
    requires InRange(q, p)
    ensures CandidateAt(q, p).skipReason == Eligible <==> Usable(q.accounts[p.account], q.targets[p.target], q.now)
  {
    hide SkipReasonFor, AccountExpiresAt, AccountCooldownUntil, AccountCanRefresh, AccountConsecutiveFailures, MetaText,
        Usable, Cooling, Lapsed, Sells;
    ReasonIff(q.accounts[p.account], q.targets[p.target], q.now);
    assert Explains(Eligible, q.accounts[p.account], q.targets[p.target], q.now) <==>
           Usable(q.accounts[p.account], q.targets[p.target], q.now);
  }

  datatype Choice = Choice(candidates: seq<Candidate>, selected: Candidate)

  /** Collect, sort by rank, take the first eligible candidate. */
  method Select(q: Request) returns (r: Result<Choice>)
    ensures r.Success? ==>
              && (exists origin :: ListsCandidates(q, r.value.candidates, origin))
              && FirstEligible(r.value.candidates, r.value.selected)
    ensures r.Failure? <==> NoneEligible(q)
    ensures r.Failure? ==> r.error == UNAVAILABLE
  {
    hide CandidateAt, HigherRank, Collected, PairBefore, SortsStably, Usable;
    var cs, pairs := Collect(q);
    if |cs| == 0 {
      assert forall p :: p in pairs <==> Collected(q, p);
      return Failure(UNAVAILABLE);
    }
    RankIsWeakOrder();
    var sorted, perm := SliceStable(cs, HigherRank);
    SortedList(q, cs, pairs, sorted, perm);
    ghost var origin := seq(|perm|, i requires 0 <= i < |perm| => pairs[perm[i]]);
    var k := FindFirst(sorted, (c: Candidate) => c.skipReason == Eligible);
    if k == |sorted| {
      forall p | Collected(q, p)
        ensures !Usable(q.accounts[p.account], q.targets[p.target], q.now)
      {
        assert p in origin;
        EligibleIff(q, p);
      }
      return Failure(UNAVAILABLE);
    }
    assert origin[k] in origin;
    EligibleIff(q, origin[k]);
    return Success(Choice(sorted, sorted[k]));
  }

  method ExplainDispatch(data: PlatformData, alias: string, rawKey: string, now: Time)
    returns (r: Result<DispatchTrace>)
    ensures r.Success? ==> IsTrace(data, alias, rawKey, now, r.value)
    ensures r.Failure? <==>
              || !Accepts(data, rawKey, now)
              || PolicyIndex(data, alias) == |data.policies|
              || NoneEligible(RequestFor(data, alias, rawKey, now))
    ensures !Accepts(data, rawKey, now) ==> r.Failure? && Refusal(data, rawKey, now) == Some(r.error)
    ensures Accepts(data, rawKey, now) && PolicyIndex(data, alias) == |data.policies| ==>
            r == Failure("model alias not found")
    ensures Accepts(data, rawKey, now) && PolicyIndex(data, alias) < |data.policies| &&
            NoneEligible(RequestFor(data, alias, rawKey, now))
            ==> r == Failure(UNAVAILABLE)
  {
    hide Accepts, Refusal, ListsCandidates, FirstEligible, NoneEligible;
    var validated := ValidateAPIKey(data, rawKey, now);
    if validated.Failure? {
      return Failure(validated.error);
    }
    var i := FindFirst(data.policies, (p: ModelAliasPolicy) => p.alias == alias);
    if i == |data.policies| {
      return Failure("model alias not found");
    }
    var q := Request(data.accounts, data.policies[i].targets, validated.value.package, alias, now);
    assert q == RequestFor(data, alias, rawKey, now);
    var chosen := Select(q);
    if chosen.Failure? {
      return Failure(chosen.error);
    }
    return Success(DispatchTrace(alias, validated.value.key, validated.value.package, chosen.value.candidates,
        chosen.value.selected));
  }

  // ---- consequences ----

  /** The candidate order is a strict order, so the list is the only one for its request. */
  lemma CandidatesUnique(q: Request, cs: seq<Candidate>, origin: seq<Pair>, cs': seq<Candidate>, origin': seq<Pair>)
    requires ListsCandidates(q, cs, origin) && ListsCandidates(q, cs', origin')
    ensures origin == origin' && cs == cs'
  {
    hide CandidateAt, Collected;
    var before := (a: Pair, b: Pair) => InRange(q, a) && InRange(q, b) && PairBefore(q, a, b);
    SortedListingUnique(origin, origin', before);
  }

  /** A request has at most one trace: nothing about dispatch is left to chance. */
  lemma TraceUnique(data: PlatformData, alias: string, rawKey: string, now: Time, trace: DispatchTrace,
                    trace': DispatchTrace)
    requires IsTrace(data, alias, rawKey, now, trace) && IsTrace(data, alias, rawKey, now, trace')
    ensures trace == trace'
  {
    hide ListsCandidates;
    var q := RequestFor(data, alias, rawKey, now);
    var origin :| ListsCandidates(q, trace.candidates, origin);
    var origin' :| ListsCandidates(q, trace'.candidates, origin');
    CandidatesUnique(q, trace.candidates, origin, trace'.candidates, origin');
  }

  /** The pair is collected and usable, and every other such pair comes after it. */
  ghost predicate IsBest(q: Request, p: Pair) {
    && Collected(q, p) && Usable(q.accounts[p.account], q.targets[p.target], q.now)
    && forall p' :: Collected(q, p') && Usable(q.accounts[p'.account], q.targets[p'.target], q.now) ==>
         p' == p || PairBefore(q, p, p')
  }

  lemma BestOfList(q: Request, cs: seq<Candidate>, origin: seq<Pair>, k: nat)
    requires ListsCandidates(q, cs, origin) && FirstEligibleAt(cs, k)
    ensures k < |origin| && IsBest(q, origin[k])
  {
    hide CandidateAt, PairBefore, Usable;
    assert origin[k] in origin;
    EligibleIff(q, origin[k]);
    forall p' | Collected(q, p') && Usable(q.accounts[p'.account], q.targets[p'.target], q.now)
      ensures p' == origin[k] || PairBefore(q, origin[k], p')
    {
      assert p' in origin;
      EligibleIff(q, p');
      var j :| 0 <= j < |origin| && origin[j] == p';
      assert k <= j;
    }
  }

  lemma BestIsOne(q: Request, p: Pair, p': Pair)
    requires IsBest(q, p) && IsBest(q, p')
    ensures p == p'
  {
    hide Usable, ProviderAllowed;
  }

  /** The selected candidate comes from the best of the collected pairs. */
  lemma SelectedIsBest(data: PlatformData, alias: string, rawKey: string, now: Time, trace: DispatchTrace)
    returns (p: Pair)
    requires IsTrace(data, alias, rawKey, now, trace)
    ensures var q := RequestFor(data, alias, rawKey, now);
            InRange(q, p) && IsBest(q, p) && CandidateAt(q, p) == trace.selected
  {
    hide Accepts, CandidateAt, FirstEligible, IsBest, Usable, PairBefore, Collected;
    var q := RequestFor(data, alias, rawKey, now);
    var origin :| ListsCandidates(q, trace.candidates, origin);
    var k := SelectedAt(trace.candidates, trace.selected);
    BestOfList(q, trace.candidates, origin, k);
    p := origin[k];
  }

  /** Candidate `i` of the trace was built from the pair `p`. */
  ghost predicate BuiltFrom(data: PlatformData, alias: string, rawKey: string, now: Time, trace: DispatchTrace,
                            i: nat, p: Pair) {
    && Accepts(data, rawKey, now) && PolicyIndex(data, alias) < |data.policies|
    && exists origin: seq<Pair> ::
         ListsCandidates(RequestFor(data, alias, rawKey, now), trace.candidates, origin)
         && i < |origin| && origin[i] == p
  }

  ghost predicate FirstEligibleAt(cs: seq<Candidate>, i: nat) {
    i < |cs| && cs[i].skipReason == Eligible && forall j :: 0 <= j < i ==> cs[j].skipReason != Eligible
  }

  /** The selected candidate was built from row `k` of the account table. */
  ghost predicate SelectedRow(data: PlatformData, alias: string, rawKey: string, now: Time, trace: DispatchTrace,
                              k: nat) {
    exists i: nat, p: Pair ::
      FirstEligibleAt(trace.candidates, i) && BuiltFrom(data, alias, rawKey, now, trace, i, p) && p.account == k
  }

  /** A candidate was built from one pair only, whatever ids the rows have. */
  lemma BuiltFromOne(data: PlatformData, alias: string, rawKey: string, now: Time, trace: DispatchTrace, i: nat,
                     p: Pair, p': Pair)
    requires BuiltFrom(data, alias, rawKey, now, trace, i, p) && BuiltFrom(data, alias, rawKey, now, trace, i, p')
    ensures p == p'
  {
    hide Accepts, ListsCandidates, RequestFor;
    var q := RequestFor(data, alias, rawKey, now);
    var o: seq<Pair> :| ListsCandidates(q, trace.candidates, o) && i < |o| && o[i] == p;
    var o': seq<Pair> :| ListsCandidates(q, trace.candidates, o') && i < |o'| && o'[i] == p';
    CandidatesUnique(q, trace.candidates, o, trace.candidates, o');
  }

  lemma BuiltFromFacts(data: PlatformData, alias: string, rawKey: string, now: Time, trace: DispatchTrace, i: nat,
                       p: Pair)
    requires BuiltFrom(data, alias, rawKey, now, trace, i, p)
    ensures var q := RequestFor(data, alias, rawKey, now);
            && q.accounts == data.accounts && InRange(q, p) && Collected(q, p)
            && i < |trace.candidates| && trace.candidates[i] == CandidateAt(q, p)
  {
    hide Accepts, CandidateAt, Collected, PairBefore;
    var q := RequestFor(data, alias, rawKey, now);
    var o: seq<Pair> :| ListsCandidates(q, trace.candidates, o) && i < |o| && o[i] == p;
    assert o[i] in o;
  }

  /** Every candidate was built from some pair. */
  lemma BuiltFromSome(data: PlatformData, alias: string, rawKey: string, now: Time, trace: DispatchTrace, i: nat)
    returns (p: Pair)
    requires IsTrace(data, alias, rawKey, now, trace) && i < |trace.candidates|
    ensures BuiltFrom(data, alias, rawKey, now, trace, i, p)
  {
    hide Accepts, RequestFor, FirstEligible;
    var q := RequestFor(data, alias, rawKey, now);
    var o: seq<Pair> :| ListsCandidates(q, trace.candidates, o);
    p := o[i];
    hide ListsCandidates;
  }

  /** What a candidate shows of the row and the target it was built from, and why it is or is not
      eligible, all read off the row. */
  lemma CandidateShows(data: PlatformData, alias: string, rawKey: string, now: Time, trace: DispatchTrace, i: nat,
                       p: Pair)
    requires BuiltFrom(data, alias, rawKey, now, trace, i, p)
    ensures i < |trace.candidates| && InRange(RequestFor(data, alias, rawKey, now), p)
    ensures var a, t := data.accounts[p.account], RequestFor(data, alias, rawKey, now).targets[p.target];
            var c := trace.candidates[i];
            && c.accountID == a.id && c.provider == a.provider && c.upstreamModel == t.upstreamModel
            && c.priority == a.priority + t.priority && c.weight == a.weight && c.accountStatus == a.status
            && (forall e :: c.expiresAt == Some(e) <==> Reads(a.meta, ExpiresAt, e))
            && (forall d :: c.cooldownUntil == Some(d) <==> Reads(a.meta, CooldownUntil, d))
            && (c.canRefresh <==> Renewable(a))
            && (c.consecutiveFails == AccountConsecutiveFailures(a))
            && c.lastRefreshError == TrimSpace(Entry(a.meta, LastRefreshError).GetOr(""))
            && c.lastFailureReason == TrimSpace(Entry(a.meta, LastFailureReason).GetOr(""))
            && (forall r: SkipReason :: c.skipReason == r <==> Explains(r, a, t, now))
  {
    BuiltFromFacts(data, alias, rawKey, now, trace, i, p);
    RequestNow(data, alias, rawKey, now);
    hide BuiltFrom, Accepts, Collected, RequestFor, Explains, MetaTime, Reads, AccountCanRefresh, Renewable;
    var q := RequestFor(data, alias, rawKey, now);
    var a, t := data.accounts[p.account], q.targets[p.target];
    ReasonIff(a, t, now);
    RenewableIff(a);
    forall key: MetaKey, time: Time ensures MetaTime(a.meta, key) == Some(time) <==> Reads(a.meta, key, time) {
      ReadsIff(a.meta, key, time);
    }
    hide SkipReasonFor, AccountConsecutiveFailures, AccountInCooldown, AccountExpired;
    assert TrimSpace("") == "";
    hide TrimSpace;
  }

  /** Candidate `i` is built from one pair and candidate `j` from another: the order is that of the
      pairs, on the rows alone. */
  lemma CandidatesRanked(data: PlatformData, alias: string, rawKey: string, now: Time, trace: DispatchTrace,
                         i: nat, x: Pair, j: nat, y: Pair)
    requires BuiltFrom(data, alias, rawKey, now, trace, i, x) && BuiltFrom(data, alias, rawKey, now, trace, j, y)
    ensures var q := RequestFor(data, alias, rawKey, now);
            InRange(q, x) && InRange(q, y) && (i < j <==> PairBefore(q, x, y))
  {
    hide Accepts, CandidateAt, RequestFor;
    var q := RequestFor(data, alias, rawKey, now);
    var o: seq<Pair> :| ListsCandidates(q, trace.candidates, o) && i < |o| && o[i] == x;
    var o': seq<Pair> :| ListsCandidates(q, trace.candidates, o') && j < |o'| && o'[j] == y;
    CandidatesUnique(q, trace.candidates, o, trace.candidates, o');
    if j < i {
      assert PairBefore(q, o[j], o[i]);
    }
  }

  /** A row is the selected one exactly when it carries the best of the collected pairs. */
  lemma SelectedRowIff(data: PlatformData, alias: string, rawKey: string, now: Time, trace: DispatchTrace, k: nat)
    requires IsTrace(data, alias, rawKey, now, trace)
    ensures SelectedRow(data, alias, rawKey, now, trace, k) <==>
            exists p: Pair :: p.account == k && IsBest(RequestFor(data, alias, rawKey, now), p)
  {
    hide Accepts, FirstEligible, RequestFor, IsBest, ListsCandidates, FirstEligibleAt;
    var q := RequestFor(data, alias, rawKey, now);
    var i := SelectedAt(trace.candidates, trace.selected);
    var p := BuiltFromSome(data, alias, rawKey, now, trace, i);
    BestBuilt(data, alias, rawKey, now, trace, i, p);
    if SelectedRow(data, alias, rawKey, now, trace, k) {
      var j: nat, p': Pair :|
        FirstEligibleAt(trace.candidates, j) && BuiltFrom(data, alias, rawKey, now, trace, j, p') && p'.account == k;
      BestBuilt(data, alias, rawKey, now, trace, j, p');
    }
    if p': Pair :| p'.account == k && IsBest(q, p') {
      BestIsOne(q, p, p');
    }
  }

  lemma BestBuilt(data: PlatformData, alias: string, rawKey: string, now: Time, trace: DispatchTrace, i: nat, p: Pair)
    requires BuiltFrom(data, alias, rawKey, now, trace, i, p) && FirstEligibleAt(trace.candidates, i)
    ensures IsBest(RequestFor(data, alias, rawKey, now), p)
  {
    hide Accepts, ListsCandidates, RequestFor, IsBest, FirstEligibleAt;
    var q := RequestFor(data, alias, rawKey, now);
    var o: seq<Pair> :| ListsCandidates(q, trace.candidates, o) && i < |o| && o[i] == p;
    BestOfList(q, trace.candidates, o, i);
  }

  /** Exactly one row is the selected one. It bears the selected id, and it is usable. */
  lemma SelectedRowIs(data: PlatformData, alias: string, rawKey: string, now: Time, trace: DispatchTrace)
    returns (k: nat)
    requires IsTrace(data, alias, rawKey, now, trace)
    ensures forall j: nat :: SelectedRow(data, alias, rawKey, now, trace, j) <==> j == k
    ensures k < |data.accounts| && data.accounts[k].id == trace.selected.accountID
    ensures exists t: ModelTarget :: Usable(data.accounts[k], t, now)
  {
    hide BuiltFrom, Accepts, ListsCandidates, Usable, RequestFor, PolicyIndex;
    var i: nat := SelectedAt(trace.candidates, trace.selected);
    var p := BuiltFromSome(data, alias, rawKey, now, trace, i);
    CandidateShows(data, alias, rawKey, now, trace, i, p);
    k := p.account;
    assert SelectedRow(data, alias, rawKey, now, trace, k);
    var q := RequestFor(data, alias, rawKey, now);
    BuiltFromFacts(data, alias, rawKey, now, trace, i, p);
    assert Explains(Eligible, data.accounts[k], q.targets[p.target], now);
    assert Usable(data.accounts[k], q.targets[p.target], now);
    forall j: nat | SelectedRow(data, alias, rawKey, now, trace, j)
      ensures j == k
    {
      var i': nat, p': Pair :|
        FirstEligibleAt(trace.candidates, i') && BuiltFrom(data, alias, rawKey, now, trace, i', p') && p'.account == j;
      assert i' == i by { assert !(i' < i) && !(i < i'); }
      BuiltFromOne(data, alias, rawKey, now, trace, i, p, p');
    }
  }

  lemma RequestNow(data: PlatformData, alias: string, rawKey: string, now: Time)
    requires Accepts(data, rawKey, now) && PolicyIndex(data, alias) < |data.policies|
    ensures RequestFor(data, alias, rawKey, now).now == now
  {}

  lemma SelectedAt(cs: seq<Candidate>, selected: Candidate) returns (i: nat)
    requires FirstEligible(cs, selected)
    ensures i < |cs| && FirstEligibleAt(cs, i) && cs[i] == selected
  {
    var k :| && 0 <= k < |cs| && cs[k] == selected && selected.skipReason == Eligible
             && forall j :: 0 <= j < k ==> cs[j].skipReason != Eligible;
    i := k;
  }

  /** A row in cooldown is never the selected one. Its id can still be selected, exactly when
      another row bears the same id and is selected. */
  lemma CooldownNotSelected(data: PlatformData, alias: string, rawKey: string, now: Time, trace: DispatchTrace, k: nat)
    requires IsTrace(data, alias, rawKey, now, trace)
    requires k < |data.accounts| && AccountInCooldown(data.accounts[k], now)
    ensures !SelectedRow(data, alias, rawKey, now, trace, k)
    ensures trace.selected.accountID == data.accounts[k].id <==>
            exists j: nat :: j < |data.accounts| && j != k && data.accounts[j].id == data.accounts[k].id
                             && SelectedRow(data, alias, rawKey, now, trace, j)
  {
    hide IsTrace, SelectedRow, AccountInCooldown, Reads, Lapsed, Sells;
    TimesIff(data.accounts[k], now);
    var j := SelectedRowIs(data, alias, rawKey, now, trace);
  }

  /** After a failed authentication, or any other operation that makes it invalid, the row is not
      selected until an operation on its id activates it or meets a success, or patches its status
      to something else, whatever else happens on the table. */
  lemma InvalidatedNotSelected(accounts: seq<UpstreamAccount>, id: string, op: HealthOp, t: Time,
                               later: seq<TableStep>,
                               data: PlatformData, alias: string, rawKey: string, now: Time, trace: DispatchTrace)
    requires IndexOf(accounts, id) < |accounts| && Invalidates(op)
    requires forall s :: s in later && s.Operated? && s.id == id ==> LeavesUnusable(s.step.op)
    requires data.accounts == TableRun(ApplyAt(accounts, id, op, t), later)
    requires IsTrace(data, alias, rawKey, now, trace)
    ensures var k := IndexOf(accounts, id);
            k < |data.accounts| && data.accounts[k].id == id && !SelectedRow(data, alias, rawKey, now, trace, k)
  {
    hide Apply, IsTrace, SelectedRow, LeavesUnusable, Invalidates, TableRun, Run, Cooling, Lapsed, Sells;
    var k, marked := IndexOf(accounts, id), ApplyAt(accounts, id, op, t);
    ApplyKeepsID(accounts[k], op, t);
    InvalidatedNow(accounts[k], op, t);
    TableRunProjects(marked, later);
    assert IsFirst(marked, k);
    var mine := StepsOf(later, id);
    forall i | 0 <= i < |mine|
      ensures LeavesUnusable(mine[i].op)
    {
      assert mine[i] in mine;
      assert Operated(id, mine[i]) in later;
    }
    UnusableStays(marked[k], mine);
    var j := SelectedRowIs(data, alias, rawKey, now, trace);
  }

  lemma InvalidatedNow(a: UpstreamAccount, op: HealthOp, t: Time)
    requires Invalidates(op)
    ensures Apply(a, op, t).status == Invalid
  {
    hide Apply;
    VerdictStep(a, op, t);
  }

  /** A counted failure that reaches the threshold takes an eligible account out of dispatch at
      `now` exactly when it is not an exceeded quota, the policy has a cooldown whose end can be
      written, and that end, to the whole second, lies ahead; otherwise it stays eligible. */
  lemma CountedFailureSkippedIff(a: UpstreamAccount, op: HealthOp, t: Time, target: ModelTarget, now: Time)
    requires ReachesThreshold(a, op) && SkipReasonFor(a, target, now) == Eligible
    ensures SkipReasonFor(Apply(a, op, t), target, now) ==
            if op.errorType != QuotaExceeded && op.policy.cooldown > 0
               && Representable(t + op.policy.cooldown) && now < Truncated(t + op.policy.cooldown)
            then SkipCooldown else Eligible
  {
    CountedFailureCoolsIff(a, op, t, now);
    CountedFailureKeeps(a, op, t);
    hide Apply, AccountInCooldown, AccountExpired, AccountCanRefresh, Representable;
  }

  /** A counted failure changes nothing else that dispatch looks at. */
  lemma CountedFailureKeeps(a: UpstreamAccount, op: HealthOp, t: Time)
    requires Counts(op)
    ensures var b := Apply(a, op, t);
            && b.status == a.status && b.supportsModels == a.supportsModels
            && (forall now :: AccountExpired(b, now) == AccountExpired(a, now)) &&
               AccountCanRefresh(b) == AccountCanRefresh(a)
  {
    hide FormatRFC3339, ParseRFC3339, AccountConsecutiveFailures, TrimSpace, Itoa;
  }

  /** Health and dispatch together: a failure at `t` that reaches the threshold keeps the account
      it is recorded on from being selected until the truncated deadline, whatever other operations,
      on any account, and added rows follow, as long as none of the operations on its id clears,
      replaces or shortens it. Until then the id is selected exactly when a later row bears it too
      and is selected. */
  lemma CoolingAccountNotSelected(accounts: seq<UpstreamAccount>, id: string, op: HealthOp, t: Time,
                                  later: seq<TableStep>,
                                  data: PlatformData, alias: string, rawKey: string, now: Time, trace: DispatchTrace)
    requires IndexOf(accounts, id) < |accounts|
    requires ReachesThreshold(accounts[IndexOf(accounts, id)], op) && op.errorType != QuotaExceeded
    requires op.policy.cooldown > 0 && Representable(t + op.policy.cooldown)
    requires forall s :: s in later && s.Operated? && s.id == id ==> KeepsCooldown(s.step, t, op.policy.cooldown)
    requires data.accounts == TableRun(ApplyAt(accounts, id, op, t), later)
    requires now < Truncated(t + op.policy.cooldown)
    requires IsTrace(data, alias, rawKey, now, trace)
    ensures var k := IndexOf(accounts, id);
            && k < |data.accounts| && data.accounts[k].id == id
            && !SelectedRow(data, alias, rawKey, now, trace, k)
            && (trace.selected.accountID == id <==>
                exists j :: k < j < |data.accounts| && data.accounts[j].id == id
                            && SelectedRow(data, alias, rawKey, now, trace, j))
  {
    hide Apply, IsTrace, KeepsCooldown, Representable, AccountInCooldown, SelectedRow, TableRun;
    var k := IndexOf(accounts, id);
    CoolingRow(accounts, id, op, t, later, now);
    CooldownNotSelected(data, alias, rawKey, now, trace, k);
    hide IndexOf;
  }

  /** The row stays where it is, stays the first of its id, and stays in cooldown. */
  lemma CoolingRow(accounts: seq<UpstreamAccount>, id: string, op: HealthOp, t: Time, later: seq<TableStep>, now: Time)
    requires IndexOf(accounts, id) < |accounts|
    requires ReachesThreshold(accounts[IndexOf(accounts, id)], op) && op.errorType != QuotaExceeded
    requires op.policy.cooldown > 0 && Representable(t + op.policy.cooldown)
    requires forall s :: s in later && s.Operated? && s.id == id ==> KeepsCooldown(s.step, t, op.policy.cooldown)
    requires now < Truncated(t + op.policy.cooldown)
    ensures var k, after := IndexOf(accounts, id), TableRun(ApplyAt(accounts, id, op, t), later);
            && k < |after| && after[k].id == id && AccountInCooldown(after[k], now)
            && forall j :: 0 <= j < k ==> after[j].id != id
  {
    hide Apply, KeepsCooldown, Representable, AccountInCooldown, TableRun, Run;
    var k, cooled := IndexOf(accounts, id), ApplyAt(accounts, id, op, t);
    ApplyKeepsID(accounts[k], op, t);
    TableRunProjects(cooled, later);
    assert IsFirst(cooled, k);
    var mine := StepsOf(later, id);
    forall i | 0 <= i < |mine|
      ensures KeepsCooldown(mine[i], t, op.policy.cooldown)
    {
      assert mine[i] in mine;
      assert Operated(id, mine[i]) in later;
    }
    CooldownHolds(accounts[k], op, t, mine, now);
  }
}
