/** Account health: status, failure counter and cooldown deadline, as text in the account's Meta. */
module Health {
  import opened Wrappers
  import opened Text
  import opened Timestamps
  import opened Domain

  datatype HealthPolicy = HealthPolicy(failureThreshold: int, cooldown: int)

  datatype TokenPayload = TokenPayload(accessToken: string, refreshToken: string, expiresAt: Time)

  datatype AccountPatch = AccountPatch(
    status: Option<AccountStatus>,
    tier: Option<string>,
    displayName: Option<string>,
    email: Option<string>,
    priority: Option<int>,
    weight: Option<int>,
    meta: Option<Meta>)

  /** The catalogue entry of the account's provider. */
  datatype ProviderDefaults = ProviderDefaults(models: seq<string>, baseUrl: string)

  const DEFAULT_THRESHOLD := 3

  // ---- readers ----

  function MetaText(meta: Meta, key: MetaKey): string {
    if key in meta then TrimSpace(meta[key]) else ""
  }

  function MetaTime(meta: Meta, key: MetaKey): Option<Time> {
    if MetaText(meta, key) == "" then None else ParseRFC3339(MetaText(meta, key))
  }

  function AccountExpiresAt(a: UpstreamAccount): Option<Time> {
    MetaTime(a.meta, ExpiresAt)
  }

  function AccountCooldownUntil(a: UpstreamAccount): Option<Time> {
    MetaTime(a.meta, CooldownUntil)
  }

  predicate AccountInCooldown(a: UpstreamAccount, now: Time) {
    AccountCooldownUntil(a).Some? && AccountCooldownUntil(a).value > now
  }

  predicate AccountExpired(a: UpstreamAccount, now: Time) {
    AccountExpiresAt(a).Some? && AccountExpiresAt(a).value <= now
  }

  predicate SupportsOAuth(provider: string) {
    provider in ["claude", "codex", "antigravity", "openai", "gemini"]
  }

  predicate AccountCanRefresh(a: UpstreamAccount) {
    SupportsOAuth(a.provider) && MetaText(a.meta, RefreshToken) != ""
  }

  const REFRESH_WINDOW := 5 * 60 * SECOND

  /** The refresh worker's test of an account. */
  predicate RefreshDue(a: UpstreamAccount, now: Time) {
    && SupportsOAuth(a.provider)
    && AccountExpiresAt(a).Some? && AccountExpiresAt(a).value < now + REFRESH_WINDOW
    && AccountCanRefresh(a)
  }

  function AccountConsecutiveFailures(a: UpstreamAccount): (n: nat) {
    match Atoi(MetaText(a.meta, ConsecutiveFailures))
    case None => 0
    case Some(n) => if n < 0 then 0 else n
  }

  // ---- what the readers mean ----

  /** The entry holds the time `t`. */
  ghost predicate Reads(meta: Meta, key: MetaKey, t: Time) {
    key in meta && ParseRFC3339(TrimSpace(meta[key])) == Some(t)
  }

  /** The account can get new tokens: its provider hands them out and it has a refresh token. */
  ghost predicate Renewable(a: UpstreamAccount) {
    && a.provider in {"claude", "codex", "antigravity", "openai", "gemini"}
    && RefreshToken in a.meta && !Blank(a.meta[RefreshToken])
  }

  lemma ReadsIff(meta: Meta, key: MetaKey, t: Time)
    ensures MetaTime(meta, key) == Some(t) <==> Reads(meta, key, t)
  {
    hide TrimSpace;
  }

  lemma RenewableIff(a: UpstreamAccount)
    ensures AccountCanRefresh(a) <==> Renewable(a)
  {
    if RefreshToken in a.meta {
      var _, _ := TrimmedPart(a.meta[RefreshToken]);
    }
    hide TrimSpace;
    var names := ["claude", "codex", "antigravity", "openai", "gemini"];
    assert names[0] in names && names[1] in names && names[2] in names && names[3] in names && names[4] in names;
  }

  /** In cooldown until a readable deadline, expired from a readable expiry on. */
  lemma TimesIff(a: UpstreamAccount, now: Time)
    ensures AccountInCooldown(a, now) <==> exists d :: Reads(a.meta, CooldownUntil, d) && now < d
    ensures AccountExpired(a, now) <==> exists e :: Reads(a.meta, ExpiresAt, e) && e <= now
  {
    hide Reads, MetaTime;
    forall key: MetaKey, t: Time ensures MetaTime(a.meta, key) == Some(t) <==> Reads(a.meta, key, t) {
      ReadsIff(a.meta, key, t);
    }
    assert AccountCooldownUntil(a).Some? ==> Reads(a.meta, CooldownUntil, AccountCooldownUntil(a).value);
    assert AccountExpiresAt(a).Some? ==> Reads(a.meta, ExpiresAt, AccountExpiresAt(a).value);
  }

  /** The counter is the positive number in the entry, and zero where there is no such number. */
  lemma CounterIff(a: UpstreamAccount)
    ensures forall n: int :: n > 0 ==>
              (AccountConsecutiveFailures(a) == n <==> Atoi(MetaText(a.meta, ConsecutiveFailures)) == Some(n))
  {
    hide TrimSpace, MetaText, Atoi;
  }

  /** The refresh worker picks the renewable accounts whose tokens expire within five minutes. */
  lemma RefreshDueIff(a: UpstreamAccount, now: Time)
    ensures RefreshDue(a, now) <==>
            Renewable(a) && exists e :: Reads(a.meta, ExpiresAt, e) && e < now + 300_000_000_000
  {
    RenewableIff(a);
    hide Reads, MetaTime, MetaText, SupportsOAuth;
    forall t: Time ensures MetaTime(a.meta, ExpiresAt) == Some(t) <==> Reads(a.meta, ExpiresAt, t) {
      ReadsIff(a.meta, ExpiresAt, t);
    }
    assert AccountExpiresAt(a).Some? ==> Reads(a.meta, ExpiresAt, AccountExpiresAt(a).value);
  }

  // ---- the effect of each operation on one account ----

  datatype HealthOp =
    | UsageOutcome(errorType: ErrorType, message: string, policy: HealthPolicy)
    | TokensRefreshed(token: TokenPayload)
    | OAuthCompleted(token: TokenPayload)
    | MarkedInvalid(message: string)
    | HealthChecked(ok: bool, message: string)
    | MarkedHealthy
    | Restored
    | CooldownCleared
    | Patched(patch: AccountPatch, defaults: ProviderDefaults)

  /** Signed 64-bit increment. */
  function Increment(n: int): int {
    if n == MAX_INT64 then MIN_INT64 else n + 1
  }

  function Threshold(policy: HealthPolicy): int {
    if policy.failureThreshold <= 0 then DEFAULT_THRESHOLD else policy.failureThreshold
  }

  function WithFailure(meta: Meta, message: string, now: Time): Meta {
    meta[LastFailureAt := FormatRFC3339(now)][LastFailureReason := message]
  }

  function Cleared(meta: Meta): Meta {
    meta[ConsecutiveFailures := "0"] - {CooldownUntil}
  }

  function Succeeded(meta: Meta, now: Time): Meta {
    Cleared(meta[LastSuccessAt := FormatRFC3339(now)][LastFailureReason := ""][LastHealthcheckError := ""])
  }

  function ActiveUnlessDisabled(s: AccountStatus): AccountStatus {
    if s == Disabled then Disabled else Active
  }

  function ApplyOutcome(a: UpstreamAccount, errorType: ErrorType, message: string, policy: HealthPolicy,
                        now: Time): UpstreamAccount {
    var failed := WithFailure(a.meta, TrimSpace(message), now);
    var failures := Increment(AccountConsecutiveFailures(a));
    match errorType
    case NoError => a.(meta := Succeeded(a.meta, now), status := ActiveUnlessDisabled(a.status))
    case AuthFailed => a.(meta := failed[LastRefreshError := TrimSpace(message)], status := Invalid)
    case QuotaExceeded => a.(meta := failed[ConsecutiveFailures := Itoa(failures)])
    case UpstreamUnavailable => a.(meta := Cooled(failed[ConsecutiveFailures := Itoa(failures)], failures, policy, now))
    case ProviderError => a.(meta := Cooled(failed[ConsecutiveFailures := Itoa(failures)], failures, policy, now))
    case _ => a.(meta := failed)
  }

  function Cooled(meta: Meta, failures: int, policy: HealthPolicy, now: Time): Meta {
    if failures >= Threshold(policy) && policy.cooldown > 0
    then meta[CooldownUntil := FormatRFC3339(now + policy.cooldown)]
    else meta
  }

  function Refreshed(meta: Meta, token: TokenPayload, now: Time): Meta {
    Cleared(meta[AccessToken := token.accessToken]
                [ExpiresAt := FormatRFC3339(token.expiresAt)]
                [LastRefreshAt := FormatRFC3339(now)]
                [LastRefreshError := ""][LastFailureReason := ""][LastHealthcheckError := ""])
  }

  function ApplyPatch(a: UpstreamAccount, p: AccountPatch, defaults: ProviderDefaults, now: Time): UpstreamAccount {
    var meta := if p.meta.Some? then p.meta.value else a.meta;
    UpstreamAccount(
      a.id,
      a.provider,
      if p.displayName.Some? && TrimSpace(p.displayName.value) != "" then p.displayName.value else a.displayName,
      if p.email.Some? then TrimSpace(p.email.value) else a.email,
      if p.status.Some? then p.status.value else a.status,
      if p.tier.Some? && TrimSpace(p.tier.value) != "" then p.tier.value else a.tier,
      if p.weight.Some? && p.weight.value > 0 then p.weight.value else a.weight,
      if p.priority.Some? then p.priority.value else a.priority,
      defaults.models,
      if MetaText(meta, BaseUrl) == "" && defaults.baseUrl != "" then meta[BaseUrl := defaults.baseUrl] else meta,
      now)
  }

  function Apply(a: UpstreamAccount, op: HealthOp, now: Time): UpstreamAccount {
    match op
    case UsageOutcome(errorType, message, policy) => ApplyOutcome(a, errorType, message, policy, now)
    case TokensRefreshed(token) =>
      var meta := if token.refreshToken != "" then a.meta[RefreshToken := token.refreshToken] else a.meta;
      a.(meta := Refreshed(meta, token, now), status := Active, lastRefreshedAt := now)
    case OAuthCompleted(token) =>
      var meta := a.meta[RefreshToken := token.refreshToken][LastSuccessAt := FormatRFC3339(now)];
      a.(meta := Refreshed(meta, token, now), status := Active, lastRefreshedAt := now)
    case MarkedInvalid(message) =>
      a.(meta := WithFailure(a.meta[LastRefreshError := message], message, now), status := Invalid,
          lastRefreshedAt := now)
    case HealthChecked(ok, message) =>
      var meta := a.meta[LastHealthcheckAt := FormatRFC3339(now)];
      if ok then a.(meta := meta[LastHealthcheckError := ""][LastSuccessAt := FormatRFC3339(now)])
      else a.(meta := WithFailure(meta[LastHealthcheckError := TrimSpace(message)], TrimSpace(message), now))
    case MarkedHealthy => a.(meta := Succeeded(a.meta, now), status := ActiveUnlessDisabled(a.status))
    case Restored =>
      a.(meta := Cleared(a.meta[LastRefreshError := ""][LastFailureReason := ""][LastHealthcheckError := ""]),
          status := Active)
    case CooldownCleared => a.(meta := Cleared(a.meta))
    case Patched(patch, defaults) => ApplyPatch(a, patch, defaults, now)
  }

  // ---- runs of one account ----

  datatype Step = Step(op: HealthOp, now: Time)

  function Run(a: UpstreamAccount, steps: seq<Step>): UpstreamAccount {
    if steps == [] then a
    else
      var n := |steps| - 1;
      Apply(Run(a, steps[..n]), steps[n].op, steps[n].now)
  }

  predicate Clears(op: HealthOp) {
    || (op.UsageOutcome? && op.errorType == NoError)
    || op.TokensRefreshed? || op.OAuthCompleted? || op.MarkedHealthy? || op.Restored? || op.CooldownCleared?
  }

  predicate Counts(op: HealthOp) {
    op.UsageOutcome? && (op.errorType == QuotaExceeded || op.errorType == UpstreamUnavailable ||
        op.errorType == ProviderError)
  }

  predicate ReplacesMeta(op: HealthOp) {
    op.Patched? && op.patch.meta.Some?
  }

  /** The number of steps up to and including the last clearing one. */
  function ClearedPrefix(steps: seq<Step>): (n: nat)
    ensures n <= |steps|
    ensures n > 0 ==> Clears(steps[n - 1].op)
    ensures forall i :: n <= i < |steps| ==> !Clears(steps[i].op)
  {
    if steps == [] then 0
    else if Clears(steps[|steps| - 1].op) then |steps|
    else ClearedPrefix(steps[..|steps| - 1])
  }

  function CountedIn(steps: seq<Step>): (n: nat)
    ensures n <= |steps|
  {
    if steps == [] then 0
    else CountedIn(steps[..|steps| - 1]) + (if Counts(steps[|steps| - 1].op) then 1 else 0)
  }

  lemma DigitsTrimmed(s: string)
    requires s != "" && AllDigits(s)
    ensures TrimSpace(s) == s
  {
    assert s[0] in s && s[|s| - 1] in s;
  }

  lemma StoredCounter(meta: Meta, n: nat)
    requires ConsecutiveFailures in meta && meta[ConsecutiveFailures] == Numeral(n) && n <= MAX_INT64
    ensures Atoi(MetaText(meta, ConsecutiveFailures)) == Some(n)
  {
    DigitsTrimmed(Numeral(n));
    AtoiItoa(n);
  }

  lemma CounterEntry(a: UpstreamAccount, op: HealthOp, now: Time)
    requires !ReplacesMeta(op)
    ensures var m, m' := a.meta, Apply(a, op, now).meta;
            if Clears(op) then ConsecutiveFailures in m' && m'[ConsecutiveFailures] == "0"
            else if Counts(op)
                then ConsecutiveFailures in m' &&
                m'[ConsecutiveFailures] == Itoa(Increment(AccountConsecutiveFailures(a)))
            else ((ConsecutiveFailures in m' <==> ConsecutiveFailures in m) &&
                  (ConsecutiveFailures in m ==> m'[ConsecutiveFailures] == m[ConsecutiveFailures]))
  {
    hide FormatRFC3339, AccountConsecutiveFailures, Itoa, TrimSpace, MetaText, Increment;
  }

  lemma CounterStep(a: UpstreamAccount, op: HealthOp, now: Time)
    requires !ReplacesMeta(op) && AccountConsecutiveFailures(a) < MAX_INT64
    ensures AccountConsecutiveFailures(Apply(a, op, now)) ==
            if Clears(op) then 0
            else if Counts(op) then AccountConsecutiveFailures(a) + 1
            else AccountConsecutiveFailures(a)
  {
    hide Apply, TrimSpace, Atoi;
    CounterEntry(a, op, now);
    if Clears(op) {
      StoredCounter(Apply(a, op, now).meta, 0);
    } else if Counts(op) {
      StoredCounter(Apply(a, op, now).meta, AccountConsecutiveFailures(a) + 1);
    }
  }

  /** The counter is a function of the history: the failures counted since the last clearing
      operation, on top of the initial counter while there has been none. */
  lemma {:induction false} CounterIsHistory(a: UpstreamAccount, steps: seq<Step>)
    requires forall i :: 0 <= i < |steps| ==> !ReplacesMeta(steps[i].op)
    requires AccountConsecutiveFailures(a) + |steps| <= MAX_INT64
    ensures AccountConsecutiveFailures(Run(a, steps)) ==
            (if ClearedPrefix(steps) == 0 then AccountConsecutiveFailures(a) else 0) +
                CountedIn(steps[ClearedPrefix(steps)..])
  {
    hide Apply, AccountConsecutiveFailures;
    if steps != [] {
      var n := |steps| - 1;
      var init := steps[..n];
      CounterIsHistory(a, init);
      CounterStep(Run(a, init), steps[n].op, steps[n].now);
      if !Clears(steps[n].op) {
        var k := ClearedPrefix(steps);
        assert steps[k..][..|steps[k..]| - 1] == init[k..];
      }
    }
  }

  // ---- cooldown deadlines ----

  predicate Cools(op: HealthOp) {
    op.UsageOutcome? && (op.errorType == UpstreamUnavailable || op.errorType == ProviderError)
  }

  /** The step writes a deadline. */
  predicate StartsCooldown(a: UpstreamAccount, op: HealthOp) {
    && Cools(op) && op.policy.cooldown > 0
    && Increment(AccountConsecutiveFailures(a)) >= Threshold(op.policy)
  }

  lemma MetaTimeOfStored(meta: Meta, key: MetaKey, t: Time)
    requires key in meta && meta[key] == FormatRFC3339(t)
    ensures MetaTime(meta, key) == if Representable(t) then Some(Truncated(t)) else None
  {
    FormatTrimmed(t);
    ParseFormat(t);
  }

  lemma CooldownEntry(a: UpstreamAccount, op: HealthOp, now: Time)
    requires !ReplacesMeta(op)
    ensures var m, m' := a.meta, Apply(a, op, now).meta;
            if Clears(op) then CooldownUntil !in m'
            else if StartsCooldown(a, op)
                then CooldownUntil in m' && m'[CooldownUntil] == FormatRFC3339(now + op.policy.cooldown)
            else ((CooldownUntil in m' <==> CooldownUntil in m) &&
                  (CooldownUntil in m ==> m'[CooldownUntil] == m[CooldownUntil]))
  {
    hide FormatRFC3339, AccountConsecutiveFailures, Itoa, TrimSpace, MetaText;
  }

  /** What every operation does to the deadline. */
  lemma DeadlineStep(a: UpstreamAccount, op: HealthOp, now: Time)
    requires !ReplacesMeta(op)
    ensures AccountCooldownUntil(Apply(a, op, now)) ==
            if Clears(op) then None
            else if StartsCooldown(a, op) then
              (if Representable(now + op.policy.cooldown) then Some(Truncated(now + op.policy.cooldown)) else None)
            else AccountCooldownUntil(a)
  {
    hide Apply, FormatRFC3339, ParseRFC3339, Representable, AccountConsecutiveFailures, TrimSpace;
    CooldownEntry(a, op, now);
    if StartsCooldown(a, op) {
      MetaTimeOfStored(Apply(a, op, now).meta, CooldownUntil, now + op.policy.cooldown);
    }
  }

  /** A failure that reaches the threshold makes the account unavailable for more than the
      cooldown less one second and for at most the cooldown: exactly until the whole second. */
  lemma CooldownInterval(a: UpstreamAccount, op: HealthOp, t: Time, now: Time)
    requires StartsCooldown(a, op) && Representable(t + op.policy.cooldown)
    ensures var d := Truncated(t + op.policy.cooldown);
            && AccountCooldownUntil(Apply(a, op, t)) == Some(d)
            && t + op.policy.cooldown - SECOND < d <= t + op.policy.cooldown
            && (AccountInCooldown(Apply(a, op, t), now) <==> now < d)
  {
    DeadlineStep(a, op, t);
    TruncatedBounds(t + op.policy.cooldown);
  }

  /** A failure that counts and brings the counter to the threshold. */
  predicate ReachesThreshold(a: UpstreamAccount, op: HealthOp) {
    Counts(op) && Increment(AccountConsecutiveFailures(a)) >= Threshold(op.policy)
  }

  /** A counted failure that reaches the threshold puts an account that is not cooling into
      cooldown at `now` exactly when it is not an exceeded quota, the policy has a cooldown whose
      end can be written, and that end, to the whole second, lies ahead. */
  lemma CountedFailureCoolsIff(a: UpstreamAccount, op: HealthOp, t: Time, now: Time)
    requires ReachesThreshold(a, op) && !AccountInCooldown(a, now)
    ensures AccountInCooldown(Apply(a, op, t), now) <==>
            && op.errorType != QuotaExceeded && op.policy.cooldown > 0
            && Representable(t + op.policy.cooldown) && now < Truncated(t + op.policy.cooldown)
  {
    hide Apply, AccountCooldownUntil, Representable, Increment;
    DeadlineStep(a, op, t);
  }

  /** An exceeded quota counts but never touches the deadline, however many there are. */
  lemma {:induction false} QuotaNeverCools(a: UpstreamAccount, steps: seq<Step>)
    requires forall i :: 0 <= i < |steps| ==> steps[i].op.UsageOutcome? && steps[i].op.errorType == QuotaExceeded
    requires AccountConsecutiveFailures(a) + |steps| <= MAX_INT64
    ensures AccountConsecutiveFailures(Run(a, steps)) == AccountConsecutiveFailures(a) + |steps|
    ensures AccountCooldownUntil(Run(a, steps)) == AccountCooldownUntil(a)
  {
    hide Apply, AccountConsecutiveFailures, AccountCooldownUntil;
    if steps != [] {
      var n := |steps| - 1;
      QuotaNeverCools(a, steps[..n]);
      CounterStep(Run(a, steps[..n]), steps[n].op, steps[n].now);
      DeadlineStep(Run(a, steps[..n]), steps[n].op, steps[n].now);
    }
  }

  /** Some step after the last clearing one wrote a deadline. */
  ghost predicate StartedSince(a: UpstreamAccount, steps: seq<Step>) {
    exists i :: ClearedPrefix(steps) <= i < |steps| && StartsCooldown(Run(a, steps[..i]), steps[i].op)
  }

  /** Over every run without a Meta replacement a deadline is stored exactly when one was written
      since the last clearing operation, or there was none and the account began with one. */
  lemma {:induction false} DeadlineStoredIff(a: UpstreamAccount, steps: seq<Step>)
    requires forall i :: 0 <= i < |steps| ==> !ReplacesMeta(steps[i].op)
    ensures CooldownUntil in Run(a, steps).meta <==>
            StartedSince(a, steps) || (ClearedPrefix(steps) == 0 && CooldownUntil in a.meta)
  {
    hide Apply, StartsCooldown;
    if steps != [] {
      var n := |steps| - 1;
      var init := steps[..n];
      DeadlineStoredIff(a, init);
      CooldownEntry(Run(a, init), steps[n].op, steps[n].now);
      if !Clears(steps[n].op) {
        StartedStep(a, steps);
      }
    }
  }

  lemma StartedStep(a: UpstreamAccount, steps: seq<Step>)
    requires steps != [] && !Clears(steps[|steps| - 1].op)
    ensures var n := |steps| - 1;
            StartedSince(a, steps) <==> StartedSince(a, steps[..n]) || StartsCooldown(Run(a, steps[..n]), steps[n].op)
  {
    hide Run, StartsCooldown, Clears;
    var n := |steps| - 1;
    var init := steps[..n];
    assert ClearedPrefix(steps) == ClearedPrefix(init);
    forall i | 0 <= i < n
      ensures init[..i] == steps[..i] && init[i] == steps[i]
    {}
    if StartedSince(a, init) {
      var i :| ClearedPrefix(init) <= i < |init| && StartsCooldown(Run(a, init[..i]), init[i].op);
      assert StartsCooldown(Run(a, steps[..i]), steps[i].op);
    }
    if StartedSince(a, steps) {
      var i :| ClearedPrefix(steps) <= i < |steps| && StartsCooldown(Run(a, steps[..i]), steps[i].op);
      assert i < n ==> StartsCooldown(Run(a, init[..i]), init[i].op);
    }
  }

  /** Nothing in the step lifts or shortens a cooldown of length `cooldown` begun at `t`. */
  predicate KeepsCooldown(s: Step, t: Time, cooldown: int) {
    && !Clears(s.op) && !ReplacesMeta(s.op) && t <= s.now
    && (s.op.UsageOutcome? && s.op.policy.cooldown > 0 ==>
          cooldown <= s.op.policy.cooldown && Representable(s.now + s.op.policy.cooldown))
  }

  /** Under a nondecreasing clock and policies no shorter than the first, later operations
      that do not clear never move the deadline earlier. */
  lemma {:induction false} DeadlineNeverEarlier(a: UpstreamAccount, steps: seq<Step>, t: Time, cooldown: int)
    requires AccountCooldownUntil(a).Some? && AccountCooldownUntil(a).value >= Truncated(t + cooldown)
    requires forall i :: 0 <= i < |steps| ==> KeepsCooldown(steps[i], t, cooldown)
    ensures AccountCooldownUntil(Run(a, steps)).Some?
    ensures AccountCooldownUntil(Run(a, steps)).value >= Truncated(t + cooldown)
  {
    hide FormatRFC3339, ParseRFC3339, Representable, Apply;
    if steps != [] {
      var n := |steps| - 1;
      DeadlineNeverEarlier(a, steps[..n], t, cooldown);
      var b, s := Run(a, steps[..n]), steps[n];
      DeadlineStep(b, s.op, s.now);
      if StartsCooldown(b, s.op) {
        TruncatedMonotone(t + cooldown, s.now + s.op.policy.cooldown);
      }
    }
  }

  /** From the failure at `t` until the truncated deadline the account stays in cooldown,
      whatever non-clearing operations follow. */
  lemma CooldownHolds(a: UpstreamAccount, op: HealthOp, t: Time, steps: seq<Step>, now: Time)
    requires StartsCooldown(a, op) && Representable(t + op.policy.cooldown)
    requires forall i :: 0 <= i < |steps| ==> KeepsCooldown(steps[i], t, op.policy.cooldown)
    requires now < Truncated(t + op.policy.cooldown)
    ensures AccountInCooldown(Run(Apply(a, op, t), steps), now)
  {
    hide Representable, Apply, Run, AccountCooldownUntil, AccountConsecutiveFailures, KeepsCooldown;
    DeadlineStep(a, op, t);
    DeadlineNeverEarlier(Apply(a, op, t), steps, t, op.policy.cooldown);
  }

  /** A stored deadline implies the counter has reached the threshold. */
  predicate CooldownJustified(a: UpstreamAccount, threshold: int) {
    CooldownUntil in a.meta ==> AccountConsecutiveFailures(a) >= threshold
  }

  lemma {:induction false} CooldownImpliesThreshold(a: UpstreamAccount, steps: seq<Step>, threshold: int)
    requires CooldownJustified(a, threshold)
    requires forall i :: 0 <= i < |steps| ==> !ReplacesMeta(steps[i].op)
    requires forall i :: 0 <= i < |steps| && steps[i].op.UsageOutcome? ==> Threshold(steps[i].op.policy) == threshold
    requires AccountConsecutiveFailures(a) + |steps| <= MAX_INT64
    ensures CooldownJustified(Run(a, steps), threshold)
    ensures AccountConsecutiveFailures(Run(a, steps)) <= AccountConsecutiveFailures(a) + |steps|
  {
    hide Apply, AccountConsecutiveFailures, FormatRFC3339;
    if steps != [] {
      var n := |steps| - 1;
      CooldownImpliesThreshold(a, steps[..n], threshold);
      CounterStep(Run(a, steps[..n]), steps[n].op, steps[n].now);
      CooldownEntry(Run(a, steps[..n]), steps[n].op, steps[n].now);
    }
  }

  // ---- is `disabled` sticky? ----

  /** The operations that write the status without looking at it. */
  predicate Overwrites(op: HealthOp) {
    || (op.UsageOutcome? && op.errorType == AuthFailed)
    || op.TokensRefreshed? || op.OAuthCompleted? || op.MarkedInvalid? || op.Restored?
  }

  predicate PatchesStatus(op: HealthOp) {
    op.Patched? && op.patch.status.Some?
  }

  /** The number of steps up to and including the last one that writes the status unseen. */
  function DecidedPrefix(steps: seq<Step>): (n: nat)
    ensures n <= |steps|
    ensures n > 0 ==> Overwrites(steps[n - 1].op) || PatchesStatus(steps[n - 1].op)
    ensures forall i :: n <= i < |steps| ==> !Overwrites(steps[i].op) && !PatchesStatus(steps[i].op)
  {
    if steps == [] then 0
    else if Overwrites(steps[|steps| - 1].op) || PatchesStatus(steps[|steps| - 1].op) then |steps|
    else DecidedPrefix(steps[..|steps| - 1])
  }

  lemma StatusStep(a: UpstreamAccount, op: HealthOp, now: Time)
    ensures Apply(a, op, now).status == Disabled <==>
            if PatchesStatus(op) then op.patch.status == Some(Disabled)
            else a.status == Disabled && !Overwrites(op)
  {
    hide FormatRFC3339, Itoa, Atoi, TrimSpace, AccountConsecutiveFailures;
  }

  /** Over every run, patches included: an account is disabled exactly when the last step that
      wrote its status unseen was a patch that disabled it, or there was none and it began so. */
  lemma {:induction false} DisabledIff(a: UpstreamAccount, steps: seq<Step>)
    ensures var n := DecidedPrefix(steps);
            Run(a, steps).status == Disabled <==>
            if n == 0 then a.status == Disabled
            else PatchesStatus(steps[n - 1].op) && steps[n - 1].op.patch.status == Some(Disabled)
  {
    hide Apply;
    if steps != [] {
      var n := |steps| - 1;
      DisabledIff(a, steps[..n]);
      StatusStep(Run(a, steps[..n]), steps[n].op, steps[n].now);
    }
  }

  /** Unless its status is patched, a disabled account stays disabled exactly when no step is a
      failed authentication, a token refresh, a refresh failure, an OAuth completion or a restore. */
  lemma DisabledSurvives(a: UpstreamAccount, steps: seq<Step>)
    requires a.status == Disabled
    requires forall i :: 0 <= i < |steps| ==> !PatchesStatus(steps[i].op)
    ensures Run(a, steps).status == Disabled <==> forall i :: 0 <= i < |steps| ==> !Overwrites(steps[i].op)
  {
    DisabledIff(a, steps);
    hide Run, Overwrites;
    var n := DecidedPrefix(steps);
    assert n > 0 ==> Overwrites(steps[n - 1].op);
  }

  /** One failed authentication followed by one success reactivates a disabled account. */
  lemma DisabledLost(a: UpstreamAccount, policy: HealthPolicy, t: Time)
    requires a.status == Disabled
    ensures Run(a, [Step(UsageOutcome(AuthFailed, "", policy), t),
            Step(UsageOutcome(NoError, "", policy), t)]).status == Active
  {
    var first, second := Step(UsageOutcome(AuthFailed, "", policy), t), Step(UsageOutcome(NoError, "", policy), t);
    assert [first, second][..1] == [first] && [first][..0] == [];
  }

  /** So does a single token refresh, and the worker that issues refreshes asks only whether the
      token can be refreshed and is about to expire. */
  lemma RefreshReactivates(a: UpstreamAccount, token: TokenPayload, t: Time)
    requires a.status == Disabled
    ensures Run(a, [Step(TokensRefreshed(token), t)]).status == Active
    ensures RefreshDue(a, t) <==> RefreshDue(a.(status := Active), t)
  {
    hide FormatRFC3339, ParseRFC3339, TrimSpace;
    assert [Step(TokensRefreshed(token), t)][..0] == [];
  }

  // ---- invalid and active ----

  /** The operations after which an account is active unless it is disabled. */
  predicate Heals(op: HealthOp) {
    (op.UsageOutcome? && op.errorType == NoError) || op.MarkedHealthy?
  }

  predicate Invalidates(op: HealthOp) {
    || (op.UsageOutcome? && op.errorType == AuthFailed)
    || op.MarkedInvalid?
    || (op.Patched? && op.patch.status == Some(Invalid))
  }

  predicate Activates(op: HealthOp) {
    || op.TokensRefreshed? || op.OAuthCompleted? || op.Restored?
    || (op.Patched? && op.patch.status == Some(Active))
  }

  predicate Decides(op: HealthOp) {
    Overwrites(op) || PatchesStatus(op) || Heals(op)
  }

  /** The number of steps up to and including the last one that has a say in the status. */
  function DecisivePrefix(steps: seq<Step>): (n: nat)
    ensures n <= |steps|
    ensures n > 0 ==> Decides(steps[n - 1].op)
    ensures forall i :: n <= i < |steps| ==> !Decides(steps[i].op)
  {
    if steps == [] then 0
    else if Decides(steps[|steps| - 1].op) then |steps|
    else DecisivePrefix(steps[..|steps| - 1])
  }

  lemma VerdictStep(a: UpstreamAccount, op: HealthOp, now: Time)
    ensures var s := Apply(a, op, now).status;
            && (s == Invalid <==> if Decides(op) then Invalidates(op) else a.status == Invalid)
            && (s == Active <==> if Decides(op) then Activates(op) || (Heals(op) && a.status != Disabled)
               else a.status == Active)
  {
    hide FormatRFC3339, Itoa, Atoi, TrimSpace, AccountConsecutiveFailures;
  }

  /** Over every run, patches included: an account is invalid exactly when the last step that had
      a say in its status was a failed authentication, a refresh failure or a patch to invalid, or
      there was none and it began so. */
  lemma {:induction false} InvalidIff(a: UpstreamAccount, steps: seq<Step>)
    ensures var n := DecisivePrefix(steps);
            Run(a, steps).status == Invalid <==>
            if n == 0 then a.status == Invalid else Invalidates(steps[n - 1].op)
  {
    hide Apply, Decides, Invalidates;
    if steps != [] {
      var n := |steps| - 1;
      InvalidIff(a, steps[..n]);
      VerdictStep(Run(a, steps[..n]), steps[n].op, steps[n].now);
    }
  }

  /** By its history the account is disabled. */
  predicate DisabledBy(a: UpstreamAccount, steps: seq<Step>) {
    var n := DecidedPrefix(steps);
    if n == 0 then a.status == Disabled
    else PatchesStatus(steps[n - 1].op) && steps[n - 1].op.patch.status == Some(Disabled)
  }

  /** And it is active exactly when that step was a token refresh, an OAuth completion, a restore,
      a patch to active, or a success met while it was not disabled, or there was none and it
      began so. */
  lemma {:induction false} ActiveIff(a: UpstreamAccount, steps: seq<Step>)
    ensures var n := DecisivePrefix(steps);
            Run(a, steps).status == Active <==>
            if n == 0 then a.status == Active
            else Activates(steps[n - 1].op) || (Heals(steps[n - 1].op) && !DisabledBy(a, steps[..n - 1]))
  {
    hide Apply, Decides, Activates, Heals;
    if steps != [] {
      var n := |steps| - 1;
      ActiveIff(a, steps[..n]);
      DisabledIff(a, steps[..n]);
      VerdictStep(Run(a, steps[..n]), steps[n].op, steps[n].now);
      var k := DecisivePrefix(steps);
      assert k <= n ==> k == DecisivePrefix(steps[..n]) && (k > 0 ==> steps[..n][..k - 1] == steps[..k - 1]);
    }
  }

  /** A step after which an invalid account stays invalid or is disabled. */
  predicate LeavesUnusable(op: HealthOp) {
    !Activates(op) && !Heals(op) && (PatchesStatus(op) ==> op.patch.status.value in {Invalid, Disabled})
  }

  lemma {:induction false} UnusableStays(a: UpstreamAccount, steps: seq<Step>)
    requires a.status in {Invalid, Disabled} && forall i :: 0 <= i < |steps| ==> LeavesUnusable(steps[i].op)
    ensures Run(a, steps).status in {Invalid, Disabled}
  {
    hide Apply, LeavesUnusable;
    if steps != [] {
      var n := |steps| - 1;
      UnusableStays(a, steps[..n]);
      UnusableStep(Run(a, steps[..n]), steps[n].op, steps[n].now);
    }
  }

  lemma UnusableStep(a: UpstreamAccount, op: HealthOp, now: Time)
    requires a.status in {Invalid, Disabled} && LeavesUnusable(op)
    ensures Apply(a, op, now).status in {Invalid, Disabled}
  {
    hide Apply;
    VerdictStep(a, op, now);
    StatusStep(a, op, now);
  }

  // ---- the entries: what was written last is what is there ----

  /** What the last step that gives something gives. */
  function LastGiven<T>(steps: seq<Step>, given: Step -> Option<T>): Option<T> {
    if steps == [] then None
    else
      var n := |steps| - 1;
      if given(steps[n]).Some? then given(steps[n]) else LastGiven(steps[..n], given)
  }

  predicate Issues(op: HealthOp) {
    op.TokensRefreshed? || op.OAuthCompleted?
  }

  /** The message of an operation that reports a failure: trimmed, unless a refresh failed. */
  function FailureText(op: HealthOp): Option<string> {
    match op
    case UsageOutcome(e, message, _) => if e == NoError then None else Some(TrimSpace(message))
    case HealthChecked(ok, message) => if ok then None else Some(TrimSpace(message))
    case MarkedInvalid(message) => Some(message)
    case _ => None
  }

  predicate Succeeds(op: HealthOp) {
    Heals(op) || op.OAuthCompleted? || (op.HealthChecked? && op.ok)
  }

  /** The key is neither the counter, nor the deadline, nor the base URL. */
  predicate Descriptive(key: MetaKey) {
    key != ConsecutiveFailures && key != CooldownUntil && key != BaseUrl
  }

  /** The text that a step writes under a descriptive key. */
  function Writes(key: MetaKey): Step -> Option<string> {
    (s: Step) =>
      match key
      case AccessToken => if Issues(s.op) then Some(s.op.token.accessToken) else None
      case RefreshToken =>
        if s.op.OAuthCompleted? || (s.op.TokensRefreshed? && s.op.token.refreshToken != "")
        then Some(s.op.token.refreshToken) else None
      case ExpiresAt => if Issues(s.op) then Some(FormatRFC3339(s.op.token.expiresAt)) else None
      case LastRefreshAt => if Issues(s.op) then Some(FormatRFC3339(s.now)) else None
      case LastRefreshError =>
        if Issues(s.op) || s.op.Restored? then Some("")
        else if s.op.MarkedInvalid? || (s.op.UsageOutcome? && s.op.errorType == AuthFailed) then FailureText(s.op)
        else None
      case LastSuccessAt => if Succeeds(s.op) then Some(FormatRFC3339(s.now)) else None
      case LastFailureAt => if FailureText(s.op).Some? then Some(FormatRFC3339(s.now)) else None
      case LastFailureReason =>
        if Issues(s.op) || s.op.Restored? || Heals(s.op) then Some("") else FailureText(s.op)
      case LastHealthcheckAt => if s.op.HealthChecked? then Some(FormatRFC3339(s.now)) else None
      case LastHealthcheckError =>
        if Issues(s.op) || s.op.Restored? || Heals(s.op) || (s.op.HealthChecked? && s.op.ok) then Some("")
        else if s.op.HealthChecked? then FailureText(s.op)
        else None
      case _ => None
  }

  function Entry(meta: Meta, key: MetaKey): Option<string> {
    if key in meta then Some(meta[key]) else None
  }

  lemma EntryStep(a: UpstreamAccount, s: Step, key: MetaKey)
    requires !ReplacesMeta(s.op) && Descriptive(key)
    ensures Entry(Apply(a, s.op, s.now).meta, key) ==
            if Writes(key)(s).Some? then Writes(key)(s) else Entry(a.meta, key)
  {
    hide Apply, Writes;
    match s.op
    case UsageOutcome(_, _, _) => OutcomeEntry(a, s, key);
    case TokensRefreshed(_) => IssueEntry(a, s, key);
    case OAuthCompleted(_) => IssueEntry(a, s, key);
    case Patched(_, _) => PatchEntry(a, s, key);
    case _ => OtherEntry(a, s, key);
  }

  lemma IssueEntry(a: UpstreamAccount, s: Step, key: MetaKey)
    requires Issues(s.op) && Descriptive(key)
    ensures Entry(Apply(a, s.op, s.now).meta, key) ==
            if Writes(key)(s).Some? then Writes(key)(s) else Entry(a.meta, key)
  {
    hide FormatRFC3339, ApplyOutcome, ApplyPatch, TrimSpace;
  }

  lemma OtherEntry(a: UpstreamAccount, s: Step, key: MetaKey)
    requires !s.op.UsageOutcome? && !Issues(s.op) && !s.op.Patched? && Descriptive(key)
    ensures Entry(Apply(a, s.op, s.now).meta, key) ==
            if Writes(key)(s).Some? then Writes(key)(s) else Entry(a.meta, key)
  {
    hide FormatRFC3339, ApplyOutcome, ApplyPatch, TrimSpace, Refreshed;
  }

  lemma OutcomeEntry(a: UpstreamAccount, s: Step, key: MetaKey)
    requires s.op.UsageOutcome? && Descriptive(key)
    ensures Entry(Apply(a, s.op, s.now).meta, key) ==
            if Writes(key)(s).Some? then Writes(key)(s) else Entry(a.meta, key)
  {
    hide FormatRFC3339, AccountConsecutiveFailures, Itoa, TrimSpace, MetaText, Increment, Threshold;
  }

  lemma PatchEntry(a: UpstreamAccount, s: Step, key: MetaKey)
    requires s.op.Patched? && !ReplacesMeta(s.op) && Descriptive(key)
    ensures Writes(key)(s) == None && Entry(Apply(a, s.op, s.now).meta, key) == Entry(a.meta, key)
  {
    hide FormatRFC3339, TrimSpace, MetaText;
  }

  /** Over every run without a Meta replacement each descriptive entry is the text last written
      there: tokens, expiry, times and messages alike. */
  lemma {:induction false} EntryIsLastWritten(a: UpstreamAccount, steps: seq<Step>, key: MetaKey)
    requires Descriptive(key) && forall i :: 0 <= i < |steps| ==> !ReplacesMeta(steps[i].op)
    ensures Entry(Run(a, steps).meta, key) ==
            if LastGiven(steps, Writes(key)).Some? then LastGiven(steps, Writes(key)) else Entry(a.meta, key)
  {
    hide Apply, Writes, Descriptive;
    if steps != [] {
      var n := |steps| - 1;
      EntryIsLastWritten(a, steps[..n], key);
      EntryStep(Run(a, steps[..n]), steps[n], key);
    }
  }

  function ExpiryIssued(s: Step): Option<Time> {
    if Issues(s.op) then Some(s.op.token.expiresAt) else None
  }

  lemma {:induction false} LastExpiryText(steps: seq<Step>)
    ensures var e, w := LastGiven(steps, ExpiryIssued), LastGiven(steps, Writes(ExpiresAt));
            if e.Some? then w == Some(FormatRFC3339(e.value)) else w.None?
  {
    hide FormatRFC3339;
    if steps != [] {
      LastExpiryText(steps[..|steps| - 1]);
    }
  }

  /** Once tokens have been issued, the account is expired exactly from the whole second of the
      last issued expiry on; one whose year cannot be written never expires. */
  lemma ExpiredByLastIssue(a: UpstreamAccount, steps: seq<Step>, now: Time)
    requires forall i :: 0 <= i < |steps| ==> !ReplacesMeta(steps[i].op)
    requires LastGiven(steps, ExpiryIssued).Some?
    ensures var e := LastGiven(steps, ExpiryIssued).value;
            AccountExpired(Run(a, steps), now) <==> Representable(e) && Truncated(e) <= now
  {
    hide Run, LastGiven, FormatRFC3339, Representable, MetaTime, Writes;
    var e := LastGiven(steps, ExpiryIssued).value;
    EntryIsLastWritten(a, steps, ExpiresAt);
    LastExpiryText(steps);
    MetaTimeOfStored(Run(a, steps).meta, ExpiresAt, e);
  }

  // ---- the fields that only patches and refreshes touch ----

  function GivenWeight(s: Step): Option<int> {
    if s.op.Patched? && s.op.patch.weight.Some? && s.op.patch.weight.value > 0 then s.op.patch.weight else None
  }

  function GivenPriority(s: Step): Option<int> {
    if s.op.Patched? then s.op.patch.priority else None
  }

  function GivenTier(s: Step): Option<string> {
    if s.op.Patched? && s.op.patch.tier.Some? && !Blank(s.op.patch.tier.value) then s.op.patch.tier else None
  }

  function GivenName(s: Step): Option<string> {
    if s.op.Patched? && s.op.patch.displayName.Some? && !Blank(s.op.patch.displayName.value)
    then s.op.patch.displayName else None
  }

  function GivenEmail(s: Step): Option<string> {
    if s.op.Patched? && s.op.patch.email.Some? then Some(TrimSpace(s.op.patch.email.value)) else None
  }

  function GivenModels(s: Step): Option<seq<string>> {
    if s.op.Patched? then Some(s.op.defaults.models) else None
  }

  function Touched(s: Step): Option<Time> {
    if s.op.Patched? || Issues(s.op) || s.op.MarkedInvalid? then Some(s.now) else None
  }

  /** The rank and the description of an account are what the last patch that gave a usable value
      gave; a weight that is not positive, or a blank name or tier, gives nothing. */
  lemma {:induction false} FieldsAreLastPatched(a: UpstreamAccount, steps: seq<Step>)
    ensures var b := Run(a, steps);
            && b.id == a.id && b.provider == a.provider
            && b.weight == LastGiven(steps, GivenWeight).GetOr(a.weight)
            && b.priority == LastGiven(steps, GivenPriority).GetOr(a.priority)
            && b.tier == LastGiven(steps, GivenTier).GetOr(a.tier)
            && b.displayName == LastGiven(steps, GivenName).GetOr(a.displayName)
            && b.email == LastGiven(steps, GivenEmail).GetOr(a.email)
            && b.supportsModels == LastGiven(steps, GivenModels).GetOr(a.supportsModels)
            && b.lastRefreshedAt == LastGiven(steps, Touched).GetOr(a.lastRefreshedAt)
  {
    hide Apply, GivenWeight, GivenPriority, GivenTier, GivenName, GivenEmail, GivenModels, Touched;
    if steps != [] {
      FieldsAreLastPatched(a, steps[..|steps| - 1]);
      FieldsStep(Run(a, steps[..|steps| - 1]), steps[|steps| - 1]);
    }
  }

  /** No other operation touches anything but the status, the Meta and the time of the refresh. */
  lemma OtherFields(a: UpstreamAccount, op: HealthOp, now: Time)
    requires !op.Patched?
    ensures var b := Apply(a, op, now);
            && b == a.(status := b.status, meta := b.meta, lastRefreshedAt := b.lastRefreshedAt)
            && b.lastRefreshedAt == if Issues(op) || op.MarkedInvalid? then now else a.lastRefreshedAt
  {
    hide FormatRFC3339, WithFailure, Succeeded, Cooled, Refreshed, Cleared, AccountConsecutiveFailures, Itoa, TrimSpace;
  }

  lemma FieldsStep(a: UpstreamAccount, s: Step)
    ensures var b := Apply(a, s.op, s.now);
            && b.id == a.id && b.provider == a.provider
            && b.weight == GivenWeight(s).GetOr(a.weight)
            && b.priority == GivenPriority(s).GetOr(a.priority)
            && b.tier == GivenTier(s).GetOr(a.tier)
            && b.displayName == GivenName(s).GetOr(a.displayName)
            && b.email == GivenEmail(s).GetOr(a.email)
            && b.supportsModels == GivenModels(s).GetOr(a.supportsModels)
            && b.lastRefreshedAt == Touched(s).GetOr(a.lastRefreshedAt)
  {
    if s.op.Patched? {
      var _, _ := TrimmedPart(s.op.patch.tier.GetOr(""));
      var _, _ := TrimmedPart(s.op.patch.displayName.GetOr(""));
    }
    hide FormatRFC3339, TrimSpace, MetaText, Blank;
    if !s.op.Patched? {
      OtherFields(a, s.op, s.now);
      hide Apply;
    }
  }

  /** The base URL of the provider stands in where there is none, and no other entry differs. */
  ghost predicate BaseGiven(before: Meta, after: Meta, baseUrl: string) {
    && (forall key :: key != BaseUrl ==> Entry(after, key) == Entry(before, key))
    && Entry(after, BaseUrl) ==
       if Blank(Entry(before, BaseUrl).GetOr("")) && baseUrl != "" then Some(baseUrl) else Entry(before, BaseUrl)
  }

  /** A patch replaces the whole Meta or none of it, apart from the base URL. */
  lemma PatchedMeta(a: UpstreamAccount, p: AccountPatch, defaults: ProviderDefaults, now: Time)
    ensures BaseGiven(p.meta.GetOr(a.meta), ApplyPatch(a, p, defaults, now).meta, defaults.baseUrl)
  {
    var _, _ := TrimmedPart(Entry(p.meta.GetOr(a.meta), BaseUrl).GetOr(""));
    hide TrimSpace, Blank;
  }

  // ---- how many failures it takes ----

  /** A failure that counts towards a cooldown under the given threshold. */
  predicate FailsUnder(s: Step, threshold: int) {
    && s.op.UsageOutcome? && s.op.errorType in {UpstreamUnavailable, ProviderError}
    && s.op.policy.failureThreshold == threshold && s.op.policy.cooldown > 0
  }

  lemma FailureStep(a: UpstreamAccount, s: Step, threshold: int)
    requires FailsUnder(s, threshold) && AccountConsecutiveFailures(a) < MAX_INT64
    ensures var b := Apply(a, s.op, s.now);
            && AccountConsecutiveFailures(b) == AccountConsecutiveFailures(a) + 1
            && (CooldownUntil in b.meta <==>
                (CooldownUntil in a.meta ||
                 AccountConsecutiveFailures(a) + 1 >= if threshold <= 0 then 3 else threshold))
  {
    hide Apply, AccountConsecutiveFailures;
    CounterStep(a, s.op, s.now);
    CooldownEntry(a, s.op, s.now);
  }

  /** From a counter at zero and no deadline, failures in a row under one threshold store a deadline
      exactly from the threshold on; a threshold that is not positive means three. */
  lemma {:induction false} FailuresBeforeCooldown(a: UpstreamAccount, steps: seq<Step>, threshold: int)
    requires AccountConsecutiveFailures(a) == 0 && CooldownUntil !in a.meta && |steps| <= MAX_INT64
    requires forall i :: 0 <= i < |steps| ==> FailsUnder(steps[i], threshold)
    ensures AccountConsecutiveFailures(Run(a, steps)) == |steps|
    ensures CooldownUntil in Run(a, steps).meta <==> |steps| >= if threshold <= 0 then 3 else threshold
  {
    hide Apply, AccountConsecutiveFailures, FailsUnder;
    if steps != [] {
      var n := |steps| - 1;
      FailuresBeforeCooldown(a, steps[..n], threshold);
      FailureStep(Run(a, steps[..n]), steps[n], threshold);
    }
  }
}
