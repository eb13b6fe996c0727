/** The stored account table and the operations that update it in place. */
module AccountStore {
  import opened Wrappers
  import opened Text
  import opened Search
  import opened Timestamps
  import opened Domain
  import opened Health

  datatype SessionStatus = SessionPending | SessionCompleted | SessionFailed | SessionExpired

  datatype OAuthSession = OAuthSession(state: string, accountID: string, status: SessionStatus, expiresAt: Time)

  /** The position of the account that an operation on `id` reaches. */
  function IndexOf(accounts: seq<UpstreamAccount>, id: string): (i: nat)
    ensures i <= |accounts|
  {
    FirstIndex(accounts, (a: UpstreamAccount) => a.id == id)
  }

  function ApplyAt(accounts: seq<UpstreamAccount>, id: string, op: HealthOp, now: Time): seq<UpstreamAccount> {
    var i := IndexOf(accounts, id);
    if i < |accounts| then accounts[i := Apply(accounts[i], op, now)] else accounts
  }

  function ResultAt(accounts: seq<UpstreamAccount>, id: string, op: HealthOp, now: Time): Result<UpstreamAccount> {
    var i := IndexOf(accounts, id);
    if i < |accounts| then Success(Apply(accounts[i], op, now)) else Failure("account not found")
  }

  /** An operation fails exactly for an unknown id; otherwise it returns the first row of the id as it
      then stands. */
  lemma ResultIsStored(accounts: seq<UpstreamAccount>, id: string, op: HealthOp, now: Time)
    ensures var r, after := ResultAt(accounts, id, op, now), ApplyAt(accounts, id, op, now);
            && (r == Failure("account not found") <==>
                forall k :: 0 <= k < |accounts| ==> accounts[k].id != id)
            && (forall k :: 0 <= k < |accounts| && accounts[k].id == id &&
                            (forall j :: 0 <= j < k ==> accounts[j].id != id) ==>
                 && |after| == |accounts| && r == Success(after[k]) && after[k] == Apply(accounts[k], op, now)
                 && forall j :: 0 <= j < |accounts| && j != k ==> after[j] == accounts[j])
  {
    hide Apply;
  }

  const NO_PROVIDER_NAME := "provider is required"
  const NO_DISPLAY_NAME := "display_name is required"

  /** The row a new account becomes. */
  function NewAccount(a: UpstreamAccount, lower: string -> string, catalogue: string -> ProviderDefaults, id: string,
                      now: Time): Result<UpstreamAccount> {
    var provider := TrimSpace(lower(a.provider));
    var displayName := TrimSpace(a.displayName);
    var defaults := catalogue(provider);
    if TrimSpace(provider) == "" then Failure(NO_PROVIDER_NAME)
    else if TrimSpace(displayName) == "" then Failure(NO_DISPLAY_NAME)
    else Success(UpstreamAccount(
      if a.id == "" then "acct-" + id else a.id,
      provider,
      displayName,
      TrimSpace(a.email),
      if a.status == OtherStatus("") then Active else a.status,
      TrimSpace(a.tier),
      if a.weight == 0 then 10 else a.weight,
      a.priority,
      defaults.models,
      if MetaText(a.meta, BaseUrl) == "" && defaults.baseUrl != "" then a.meta[BaseUrl := defaults.baseUrl] else a.meta,
      now))
  }

  /** What is added: refused exactly for a blank provider or display name; otherwise the row as
      given, trimmed, with an id, a status and a weight where it came without, and the provider's
      models and base URL. */
  lemma AddedShows(a: UpstreamAccount, lower: string -> string, catalogue: string -> ProviderDefaults, id: string,
                   now: Time)
    ensures var r := NewAccount(a, lower, catalogue, id, now);
            && (r.Success? <==> !Blank(lower(a.provider)) && !Blank(a.displayName))
            && (r.Success? ==>
                 var b, defaults := r.value, catalogue(TrimSpace(lower(a.provider)));
                 && b.provider == TrimSpace(lower(a.provider)) && b.displayName == TrimSpace(a.displayName)
                 && b.email == TrimSpace(a.email) && b.tier == TrimSpace(a.tier)
                 && (a.id != "" ==> b.id == a.id) && (a.id == "" ==> b.id == "acct-" + id)
                 && (a.status != OtherStatus("") ==> b.status == a.status)
                 && (a.status == OtherStatus("") ==> b.status == Active)
                 && (a.weight != 0 ==> b.weight == a.weight) && (a.weight == 0 ==> b.weight == 10)
                 && b.priority == a.priority && b.supportsModels == defaults.models && b.lastRefreshedAt == now
                 && BaseGiven(a.meta, b.meta, defaults.baseUrl))
  {
    var _, _ := TrimmedPart(lower(a.provider));
    var _, _ := TrimmedPart(a.displayName);
    var _, _ := TrimmedPart(Entry(a.meta, BaseUrl).GetOr(""));
    TrimTwice(lower(a.provider));
    TrimTwice(a.displayName);
    hide TrimSpace, Blank;
  }

  class Store {
    var accounts: seq<UpstreamAccount>
    var sessions: seq<OAuthSession>

    method RecordUsageOutcome(id: string, errorType: ErrorType, message: string, policy: HealthPolicy, now: Time)
      returns (r: Result<UpstreamAccount>)
      modifies this`accounts
      ensures accounts == ApplyAt(old(accounts), id, UsageOutcome(errorType, message, policy), now)
      ensures r == ResultAt(old(accounts), id, UsageOutcome(errorType, message, policy), now)
    {
      hide ApplyOutcome;
      var threshold := policy.failureThreshold;
      if threshold <= 0 {
        threshold := DEFAULT_THRESHOLD;
      }
      var i := FindFirst(accounts, (a: UpstreamAccount) => a.id == id);
      if i == |accounts| {
        return Failure("account not found");
      }
      var updated := Judge(accounts[i], errorType, message, policy, threshold, now);
      accounts := accounts[i := updated];
      return Success(updated);
    }

    /** The switch on the error type, for one account. */
    static method Judge(acct: UpstreamAccount, errorType: ErrorType, message: string, policy: HealthPolicy,
                        threshold: int, now: Time)
      returns (updated: UpstreamAccount)
      requires threshold == Threshold(policy)
      ensures updated == ApplyOutcome(acct, errorType, message, policy, now)
    {
      hide FormatRFC3339, AccountConsecutiveFailures, Itoa, TrimSpace, MetaText, Increment, Threshold;
      var meta, status := acct.meta, acct.status;
      match errorType {
        case NoError =>
          meta := meta[LastSuccessAt := FormatRFC3339(now)];
          meta := meta[LastFailureReason := ""];
          meta := meta[LastHealthcheckError := ""];
          meta := meta[ConsecutiveFailures := "0"];
          meta := meta - {CooldownUntil};
          if status != Disabled {
            status := Active;
          }
        case AuthFailed =>
          meta := meta[LastFailureAt := FormatRFC3339(now)];
          meta := meta[LastFailureReason := TrimSpace(message)];
          meta := meta[LastRefreshError := TrimSpace(message)];
          status := Invalid;
        case QuotaExceeded =>
          meta := meta[LastFailureAt := FormatRFC3339(now)];
          meta := meta[LastFailureReason := TrimSpace(message)];
          meta := meta[ConsecutiveFailures := Itoa(Increment(AccountConsecutiveFailures(acct)))];
        case UpstreamUnavailable | ProviderError =>
          var failures := Increment(AccountConsecutiveFailures(acct));
          meta := meta[ConsecutiveFailures := Itoa(failures)];
          meta := meta[LastFailureAt := FormatRFC3339(now)];
          meta := meta[LastFailureReason := TrimSpace(message)];
          if failures >= threshold && policy.cooldown > 0 {
            meta := meta[CooldownUntil := FormatRFC3339(now + policy.cooldown)];
          }
        case _ =>
          meta := meta[LastFailureAt := FormatRFC3339(now)];
          meta := meta[LastFailureReason := TrimSpace(message)];
      }
      updated := acct.(meta := meta, status := status);
    }

    /** The three fields that every recovery resets, then the counter and the deadline. */
    static method Recover(meta0: Meta) returns (meta: Meta)
      ensures meta == Cleared(meta0[LastRefreshError := ""][LastFailureReason := ""][LastHealthcheckError := ""])
    {
      meta := meta0[LastRefreshError := ""];
      meta := meta[LastFailureReason := ""];
      meta := meta[LastHealthcheckError := ""];
      meta := meta[ConsecutiveFailures := "0"];
      meta := meta - {CooldownUntil};
    }

    method RefreshAccountTokens(id: string, token: TokenPayload, now: Time) returns (r: Result<UpstreamAccount>)
      modifies this`accounts
      ensures accounts == ApplyAt(old(accounts), id, TokensRefreshed(token), now)
      ensures r == ResultAt(old(accounts), id, TokensRefreshed(token), now)
    {
      hide FormatRFC3339;
      var i := FindFirst(accounts, (a: UpstreamAccount) => a.id == id);
      if i == |accounts| {
        return Failure("account not found");
      }
      var acct := accounts[i];
      var meta := acct.meta;
      if token.refreshToken != "" {
        meta := meta[RefreshToken := token.refreshToken];
      }
      meta := meta[AccessToken := token.accessToken];
      meta := meta[ExpiresAt := FormatRFC3339(token.expiresAt)];
      meta := meta[LastRefreshAt := FormatRFC3339(now)];
      meta := Recover(meta);
      var updated := acct.(meta := meta, status := Active, lastRefreshedAt := now);
      accounts := accounts[i := updated];
      return Success(updated);
    }

    /** An expired session fails the whole step, so even its own status is left as it was. */
    method CompleteOAuthSession(state: string, token: TokenPayload, now: Time)
      returns (r: Result<(UpstreamAccount, OAuthSession)>)
      modifies this`accounts, this`sessions
      ensures var k := FirstIndex(old(sessions), (s: OAuthSession) => s.state == state);
              if k < |old(sessions)| && old(sessions)[k].expiresAt >= now &&
                  IndexOf(old(accounts), old(sessions)[k].accountID) < |old(accounts)| then
                && accounts == ApplyAt(old(accounts), old(sessions)[k].accountID, OAuthCompleted(token), now)
                && sessions == old(sessions)[k := old(sessions)[k].(status := SessionCompleted)]
                && r == Success((accounts[IndexOf(old(accounts), old(sessions)[k].accountID)], sessions[k]))
              else
                r.Failure? && accounts == old(accounts) && sessions == old(sessions)
    {
      hide FormatRFC3339;
      var k := FindFirst(sessions, (s: OAuthSession) => s.state == state);
      if k == |sessions| {
        return Failure("oauth session not found");
      }
      var session := sessions[k];
      if session.expiresAt < now {
        return Failure("oauth session expired");
      }
      var i := FindFirst(accounts, (a: UpstreamAccount) => a.id == session.accountID);
      if i == |accounts| {
        return Failure("account not found");
      }
      var acct := accounts[i];
      var meta := acct.meta[RefreshToken := token.refreshToken];
      meta := meta[LastSuccessAt := FormatRFC3339(now)];
      meta := meta[AccessToken := token.accessToken];
      meta := meta[ExpiresAt := FormatRFC3339(token.expiresAt)];
      meta := meta[LastRefreshAt := FormatRFC3339(now)];
      meta := Recover(meta);
      var updated := acct.(meta := meta, status := Active, lastRefreshedAt := now);
      accounts := accounts[i := updated];
      sessions := sessions[k := session.(status := SessionCompleted)];
      return Success((updated, sessions[k]));
    }

    method MarkAccountInvalid(id: string, message: string, now: Time) returns (r: Result<UpstreamAccount>)
      modifies this`accounts
      ensures accounts == ApplyAt(old(accounts), id, MarkedInvalid(message), now)
      ensures r == ResultAt(old(accounts), id, MarkedInvalid(message), now)
    {
      hide FormatRFC3339;
      var i := FindFirst(accounts, (a: UpstreamAccount) => a.id == id);
      if i == |accounts| {
        return Failure("account not found");
      }
      var meta := accounts[i].meta;
      meta := meta[LastRefreshError := message];
      meta := meta[LastFailureAt := FormatRFC3339(now)];
      meta := meta[LastFailureReason := message];
      var updated := accounts[i].(meta := meta, lastRefreshedAt := now, status := Invalid);
      accounts := accounts[i := updated];
      return Success(updated);
    }

    method RecordHealthCheck(id: string, ok: bool, message: string, now: Time) returns (r: Result<UpstreamAccount>)
      modifies this`accounts
      ensures accounts == ApplyAt(old(accounts), id, HealthChecked(ok, message), now)
      ensures r == ResultAt(old(accounts), id, HealthChecked(ok, message), now)
    {
      hide FormatRFC3339, TrimSpace;
      var i := FindFirst(accounts, (a: UpstreamAccount) => a.id == id);
      if i == |accounts| {
        return Failure("account not found");
      }
      var meta := accounts[i].meta[LastHealthcheckAt := FormatRFC3339(now)];
      if ok {
        meta := meta[LastHealthcheckError := ""];
        meta := meta[LastSuccessAt := FormatRFC3339(now)];
      } else {
        meta := meta[LastHealthcheckError := TrimSpace(message)];
        meta := meta[LastFailureAt := FormatRFC3339(now)];
        meta := meta[LastFailureReason := TrimSpace(message)];
      }
      var updated := accounts[i].(meta := meta);
      accounts := accounts[i := updated];
      return Success(updated);
    }

    method MarkAccountHealthy(id: string, now: Time) returns (r: Result<UpstreamAccount>)
      modifies this`accounts
      ensures accounts == ApplyAt(old(accounts), id, MarkedHealthy, now)
      ensures r == ResultAt(old(accounts), id, MarkedHealthy, now)
    {
      hide FormatRFC3339;
      var i := FindFirst(accounts, (a: UpstreamAccount) => a.id == id);
      if i == |accounts| {
        return Failure("account not found");
      }
      var meta, status := accounts[i].meta, accounts[i].status;
      meta := meta[LastSuccessAt := FormatRFC3339(now)];
      meta := meta[LastFailureReason := ""];
      meta := meta[LastHealthcheckError := ""];
      meta := meta[ConsecutiveFailures := "0"];
      meta := meta - {CooldownUntil};
      if status != Disabled {
        status := Active;
      }
      var updated := accounts[i].(meta := meta, status := status);
      accounts := accounts[i := updated];
      return Success(updated);
    }

    method RestoreAccount(id: string, now: Time) returns (r: Result<UpstreamAccount>)
      modifies this`accounts
      ensures accounts == ApplyAt(old(accounts), id, Restored, now)
      ensures r == ResultAt(old(accounts), id, Restored, now)
    {
      var i := FindFirst(accounts, (a: UpstreamAccount) => a.id == id);
      if i == |accounts| {
        return Failure("account not found");
      }
      var meta := Recover(accounts[i].meta);
      var updated := accounts[i].(status := Active, meta := meta);
      accounts := accounts[i := updated];
      return Success(updated);
    }

    method ClearAccountCooldown(id: string, now: Time) returns (r: Result<UpstreamAccount>)
      modifies this`accounts
      ensures accounts == ApplyAt(old(accounts), id, CooldownCleared, now)
      ensures r == ResultAt(old(accounts), id, CooldownCleared, now)
    {
      var i := FindFirst(accounts, (a: UpstreamAccount) => a.id == id);
      if i == |accounts| {
        return Failure("account not found");
      }
      var meta := accounts[i].meta - {CooldownUntil};
      meta := meta[ConsecutiveFailures := "0"];
      assert meta == Cleared(accounts[i].meta);
      var updated := accounts[i].(meta := meta);
      accounts := accounts[i := updated];
      return Success(updated);
    }

    /** The row that a new account becomes: trimmed, with the defaults of its provider, and with an
        identifier of its own only if it came without one. `lower` is the text in lower case. */
    method AddUpstreamAccount(acct0: UpstreamAccount, lower: string -> string, catalogue: string -> ProviderDefaults,
                              id: string, now: Time) returns (r: Result<UpstreamAccount>)
      modifies this`accounts
      ensures r == NewAccount(acct0, lower, catalogue, id, now)
      ensures accounts == if r.Success? then TableNext(old(accounts), Added(r.value)) else old(accounts)
    {
      hide TrimSpace, MetaText;
      var acct := acct0;
      acct := acct.(provider := TrimSpace(lower(acct.provider)));
      acct := acct.(displayName := TrimSpace(acct.displayName));
      acct := acct.(email := TrimSpace(acct.email), tier := TrimSpace(acct.tier));
      if TrimSpace(acct.provider) == "" {
        return Failure(NO_PROVIDER_NAME);
      }
      if TrimSpace(acct.displayName) == "" {
        return Failure(NO_DISPLAY_NAME);
      }
      var defaults := catalogue(acct.provider);
      acct := acct.(supportsModels := defaults.models);
      if MetaText(acct.meta, BaseUrl) == "" && defaults.baseUrl != "" {
        acct := acct.(meta := acct.meta[BaseUrl := defaults.baseUrl]);
      }
      if acct.id == "" {
        acct := acct.(id := "acct-" + id);
      }
      if acct.status == OtherStatus("") {
        acct := acct.(status := Active);
      }
      if acct.weight == 0 {
        acct := acct.(weight := 10);
      }
      acct := acct.(lastRefreshedAt := now);
      accounts := accounts + [acct];
      return Success(acct);
    }

    method UpdateUpstreamAccount(id: string, patch: AccountPatch, defaults: ProviderDefaults, now: Time)
      returns (r: Result<UpstreamAccount>)
      modifies this`accounts
      ensures accounts == ApplyAt(old(accounts), id, Patched(patch, defaults), now)
      ensures r == ResultAt(old(accounts), id, Patched(patch, defaults), now)
    {
      hide ApplyPatch;
      var i := FindFirst(accounts, (a: UpstreamAccount) => a.id == id);
      if i == |accounts| {
        return Failure("account not found");
      }
      var updated := PatchFields(accounts[i], patch, defaults, now);
      accounts := accounts[i := updated];
      return Success(updated);
    }

    /** Every field the patch mentions, then the provider's defaults. */
    static method PatchFields(acct0: UpstreamAccount, patch: AccountPatch, defaults: ProviderDefaults, now: Time)
      returns (acct: UpstreamAccount)
      ensures acct == ApplyPatch(acct0, patch, defaults, now)
    {
      hide TrimSpace, MetaText;
      var status, tier, displayName, email := acct0.status, acct0.tier, acct0.displayName, acct0.email;
      var priority, weight, meta := acct0.priority, acct0.weight, acct0.meta;
      if patch.status.Some? {
        status := patch.status.value;
      }
      if patch.tier.Some? && TrimSpace(patch.tier.value) != "" {
        tier := patch.tier.value;
      }
      if patch.displayName.Some? && TrimSpace(patch.displayName.value) != "" {
        displayName := patch.displayName.value;
      }
      if patch.email.Some? {
        email := TrimSpace(patch.email.value);
      }
      if patch.priority.Some? {
        priority := patch.priority.value;
      }
      if patch.weight.Some? && patch.weight.value > 0 {
        weight := patch.weight.value;
      }
      if patch.meta.Some? {
        meta := patch.meta.value;
      }
      if MetaText(meta, BaseUrl) == "" && defaults.baseUrl != "" {
        meta := meta[BaseUrl := defaults.baseUrl];
      }
      acct := UpstreamAccount(acct0.id, acct0.provider, displayName, email, status, tier, weight, priority,
                              defaults.models, meta, now);
    }
  }

  // ---- runs over the whole table ----

  /** An operation addressed to an id, or a row added at the end with whatever id it came with. */
  datatype TableStep = Operated(id: string, step: Step) | Added(account: UpstreamAccount)

  function TableNext(accounts: seq<UpstreamAccount>, s: TableStep): seq<UpstreamAccount> {
    match s
    case Operated(id, step) => ApplyAt(accounts, id, step.op, step.now)
    case Added(a) => accounts + [a]
  }

  function TableRun(accounts: seq<UpstreamAccount>, steps: seq<TableStep>): seq<UpstreamAccount> {
    if steps == [] then accounts
    else TableNext(TableRun(accounts, steps[..|steps| - 1]), steps[|steps| - 1])
  }

  /** The steps addressed to one id. */
  function StepsOf(steps: seq<TableStep>, id: string): (r: seq<Step>)
    ensures forall s :: s in r ==> Operated(id, s) in steps
  {
    if steps == [] then []
    else
      var last := steps[|steps| - 1];
      StepsOf(steps[..|steps| - 1], id) + (if last.Operated? && last.id == id then [last.step] else [])
  }

  /** Ids identify the account: no two rows share one. */
  predicate UniqueIDs(accounts: seq<UpstreamAccount>) {
    forall i, j :: 0 <= i < j < |accounts| ==> accounts[i].id != accounts[j].id
  }

  /** No earlier row has the id of row `k`: the row that operations on the id reach. */
  predicate IsFirst(accounts: seq<UpstreamAccount>, k: nat) {
    k < |accounts| && IndexOf(accounts, accounts[k].id) == k
  }

  /** Row `k` of a table after the steps, as a matter of that row alone. */
  function Evolved(accounts: seq<UpstreamAccount>, steps: seq<TableStep>, k: nat): UpstreamAccount
    requires k < |accounts|
  {
    if IsFirst(accounts, k) then Run(accounts[k], StepsOf(steps, accounts[k].id)) else accounts[k]
  }

  /** The rows of `accounts` keep their places and ids in `after`. */
  ghost predicate KeepsRows(accounts: seq<UpstreamAccount>, after: seq<UpstreamAccount>) {
    |accounts| <= |after| && forall k :: 0 <= k < |accounts| ==> after[k].id == accounts[k].id
  }

  lemma FirstStays(accounts: seq<UpstreamAccount>, after: seq<UpstreamAccount>, k: nat)
    requires KeepsRows(accounts, after) && k < |accounts|
    ensures IsFirst(after, k) <==> IsFirst(accounts, k)
  {
    var i, j := IndexOf(accounts, accounts[k].id), IndexOf(after, accounts[k].id);
    assert after[i].id == accounts[k].id;
    assert accounts[j].id == accounts[k].id;
  }

  /** Every account evolves as if it were alone, with or without repeated ids and with rows added
      on the way: the first row of an id under the steps addressed to the id, a later row of an id
      that an earlier row has not at all. */
  lemma {:induction false} TableRunProjects(accounts: seq<UpstreamAccount>, steps: seq<TableStep>)
    ensures KeepsRows(accounts, TableRun(accounts, steps))
    ensures forall k :: 0 <= k < |accounts| ==> TableRun(accounts, steps)[k] == Evolved(accounts, steps, k)
  {
    if steps == [] {
      assert forall k :: 0 <= k < |accounts| ==> StepsOf(steps, accounts[k].id) == [];
    } else {
      hide TableNext, Evolved, KeepsRows;
      var init, last := steps[..|steps| - 1], steps[|steps| - 1];
      TableRunProjects(accounts, init);
      var before := TableRun(accounts, init);
      NextKeepsRows(before, last);
      RowsKeptTwice(accounts, before, TableNext(before, last));
      forall k | 0 <= k < |accounts|
        ensures k < |TableNext(before, last)| && TableNext(before, last)[k] == Evolved(accounts, steps, k)
      {
        NextRow(accounts, before, steps, k);
      }
    }
  }

  lemma NextRow(accounts: seq<UpstreamAccount>, before: seq<UpstreamAccount>, steps: seq<TableStep>, k: nat)
    requires steps != [] && k < |accounts| && KeepsRows(accounts, before)
    requires before[k] == Evolved(accounts, steps[..|steps| - 1], k)
    ensures var after := TableNext(before, steps[|steps| - 1]);
            k < |after| && after[k] == Evolved(accounts, steps, k)
  {
    hide Apply, Run, StepsOf;
    FirstStays(accounts, before, k);
    TableRowNext(before, steps[|steps| - 1], k);
    RunOfSteps(accounts[k], steps);
  }

  /** One step of the table reaches the first row of its id and no other. */
  lemma TableRowNext(accounts: seq<UpstreamAccount>, s: TableStep, k: nat)
    requires k < |accounts|
    ensures var after := TableNext(accounts, s);
            && k < |after|
            && after[k] == if s.Operated? && accounts[k].id == s.id && IsFirst(accounts, k)
                           then Apply(accounts[k], s.step.op, s.step.now) else accounts[k]
  {
    hide Apply;
  }

  lemma NextKeepsRows(accounts: seq<UpstreamAccount>, s: TableStep)
    ensures KeepsRows(accounts, TableNext(accounts, s))
  {
    hide Apply;
    if s.Operated? && IndexOf(accounts, s.id) < |accounts| {
      ApplyKeepsID(accounts[IndexOf(accounts, s.id)], s.step.op, s.step.now);
    }
  }

  lemma RowsKeptTwice(a: seq<UpstreamAccount>, b: seq<UpstreamAccount>, c: seq<UpstreamAccount>)
    requires KeepsRows(a, b) && KeepsRows(b, c)
    ensures KeepsRows(a, c)
  {}

  /** The run of an account under its own steps, one step of the table at a time. */
  lemma RunOfSteps(a: UpstreamAccount, steps: seq<TableStep>)
    requires steps != []
    ensures var init, last := steps[..|steps| - 1], steps[|steps| - 1];
            var before := Run(a, StepsOf(init, a.id));
            Run(a, StepsOf(steps, a.id)) ==
            if last.Operated? && last.id == a.id then Apply(before, last.step.op, last.step.now) else before
  {
    hide Apply;
    var init, last := steps[..|steps| - 1], steps[|steps| - 1];
    var mine := StepsOf(init, a.id);
    if last.Operated? && last.id == a.id {
      assert (mine + [last.step])[..|mine|] == mine;
    } else {
      assert StepsOf(steps, a.id) == mine;
    }
  }

  /** Ids stay unique through a step exactly when it adds no row with an id in use. */
  lemma UniqueKeptIff(accounts: seq<UpstreamAccount>, s: TableStep)
    requires UniqueIDs(accounts)
    ensures UniqueIDs(TableNext(accounts, s)) <==>
            (s.Added? ==> forall k :: 0 <= k < |accounts| ==> accounts[k].id != s.account.id)
  {
    NextKeepsRows(accounts, s);
    var after := TableNext(accounts, s);
    if s.Added? {
      assert after[|accounts|] == s.account;
      forall k | 0 <= k < |accounts| && UniqueIDs(after)
        ensures accounts[k].id != s.account.id
      {
        assert after[k] == accounts[k];
      }
    } else {
      hide Apply;
    }
  }

  lemma ApplyKeepsID(a: UpstreamAccount, op: HealthOp, now: Time)
    ensures Apply(a, op, now).id == a.id
  {
    hide FormatRFC3339, AccountConsecutiveFailures, Itoa, TrimSpace, MetaText;
  }
}
