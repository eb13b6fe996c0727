/** Charging users for usage: balances and quotas against the stored log. */
module UsageLedger {
  import opened Wrappers
  import opened Search
  import opened Timestamps
  import opened Domain
  import opened Access

  const COST_PER_TOKEN := 0.000002

  /** The letters whose lower case is an ASCII letter, as Go's ToLower maps them. */
  function LowerASCII(c: char): char {
    if 'A' <= c <= 'Z' then (c as int + 32) as char
    else if c == '\U{0130}' then 'i'
    else if c == '\U{212A}' then 'k'
    else c
  }

  predicate HasPrefixFold(s: string, prefix: string) {
    |prefix| <= |s| && forall i :: 0 <= i < |prefix| ==> LowerASCII(s[i]) == prefix[i]
  }

  predicate FreeForVIP(group: string, log: UsageLog) {
    group == VIP_GROUP && HasPrefixFold(log.modelAlias, "gemini")
  }

  /** The log as stored, its cost settled. */
  function Settled(log: UsageLog, group: string): UsageLog {
    if FreeForVIP(group, log) then log.(cost := 0.0)
    else if log.cost == 0.0 && log.totalTokens > 0 then log.(cost := log.totalTokens as real * COST_PER_TOKEN)
    else log
  }

  function Charged(u: User, stored: UsageLog): User {
    u.(balance := if stored.cost > 0.0 then u.balance - stored.cost else u.balance,
       totalQuota := if stored.totalTokens > 0 then u.totalQuota - stored.totalTokens as real else u.totalQuota)
  }

  function GroupOf(data: PlatformData, userID: string): string {
    var u := UserIndex(data, userID);
    if u < |data.users| then data.users[u].group else ""
  }

  function AfterLog(data: PlatformData, log: UsageLog): PlatformData {
    var stored := Settled(log, GroupOf(data, log.userID));
    var k := FirstIndex(data.apiKeys, (k: APIKey) => k.id == log.apiKeyID);
    var u := UserIndex(data, log.userID);
    data.(apiKeys := if k < |data.apiKeys| then data.apiKeys[k := data.apiKeys[k].(lastUsedAt := log.createdAt)]
        else data.apiKeys,
          users := if u < |data.users| then data.users[u := Charged(data.users[u], stored)] else data.users,
          usageLogs := data.usageLogs + [stored])
  }

  class Store {
    var data: PlatformData

    method AppendUsageLog(log0: UsageLog)
      modifies this
      ensures data == AfterLog(old(data), log0)
    {
      hide Settled, Charged;
      var apiKeys, users := data.apiKeys, data.users;
      var k := FindFirst(apiKeys, (k: APIKey) => k.id == log0.apiKeyID);
      if k < |apiKeys| {
        apiKeys := apiKeys[k := apiKeys[k].(lastUsedAt := log0.createdAt)];
      }
      var group := "";
      var u := FindFirst(users, (u: User) => u.id == log0.userID);
      if u < |users| {
        group := users[u].group;
      }
      var log := Settle(log0, group);
      if u < |users| {
        var charged := Charge(users[u], log);
        users := users[u := charged];
      }
      data := data.(apiKeys := apiKeys, users := users, usageLogs := data.usageLogs + [log]);
    }

    static method Settle(log0: UsageLog, group: string) returns (log: UsageLog)
      ensures log == Settled(log0, group)
    {
      hide HasPrefixFold;
      log := log0;
      if group == VIP_GROUP && HasPrefixFold(log.modelAlias, "gemini") {
        log := log.(cost := 0.0);
      } else if log.cost == 0.0 && log.totalTokens > 0 {
        log := log.(cost := log.totalTokens as real * COST_PER_TOKEN);
      }
    }

    static method Charge(user: User, log: UsageLog) returns (u: User)
      ensures u == Charged(user, log)
    {
      u := user;
      if log.cost > 0.0 {
        u := u.(balance := u.balance - log.cost);
      }
      if log.totalTokens > 0 {
        u := u.(totalQuota := u.totalQuota - log.totalTokens as real);
      }
    }
  }

  // ---- runs ----

  function Run(data: PlatformData, logs: seq<UsageLog>): PlatformData {
    if logs == [] then data
    else AfterLog(Run(data, logs[..|logs| - 1]), logs[|logs| - 1])
  }

  /** What the stored log says a user has spent: the positive costs under that id. */
  function Spent(logs: seq<UsageLog>, userID: string): real {
    if logs == [] then 0.0
    else
      var last := logs[|logs| - 1];
      Spent(logs[..|logs| - 1], userID) + (if last.userID == userID && last.cost > 0.0 then last.cost else 0.0)
  }

  function TokensUsed(logs: seq<UsageLog>, userID: string): int {
    if logs == [] then 0
    else
      var last := logs[|logs| - 1];
      TokensUsed(logs[..|logs| - 1], userID) +
          (if last.userID == userID && last.totalTokens > 0 then last.totalTokens else 0)
  }

  lemma SpentAppend(logs: seq<UsageLog>, log: UsageLog, userID: string)
    ensures Spent(logs + [log], userID) == Spent(logs, userID) +
            (if log.userID == userID && log.cost > 0.0 then log.cost else 0.0)
    ensures TokensUsed(logs + [log], userID) == TokensUsed(logs, userID) +
            (if log.userID == userID && log.totalTokens > 0 then log.totalTokens else 0)
  {
    assert (logs + [log])[..|logs|] == logs;
  }

  /** The user whose account the charges for its id go to. */
  predicate IsPayer(data: PlatformData, i: nat) {
    i < |data.users| && UserIndex(data, data.users[i].id) == i
  }

  lemma StepConserves(data: PlatformData, log: UsageLog, i: nat)
    requires i < |data.users|
    ensures var d := AfterLog(data, log);
            && |d.users| == |data.users|
            && (forall j :: 0 <= j < |data.users| ==> d.users[j].id == data.users[j].id)
            && (IsPayer(data, i) ==>
                 && d.users[i].balance + Spent(d.usageLogs, data.users[i].id) == data.users[i].balance +
                    Spent(data.usageLogs, data.users[i].id)
                 && d.users[i].totalQuota + TokensUsed(d.usageLogs, data.users[i].id) as real
                      == data.users[i].totalQuota + TokensUsed(data.usageLogs, data.users[i].id) as real)
            && (data.users[i].id != log.userID || !IsPayer(data, i) ==> d.users[i] == data.users[i])
            && d.users[i].group == data.users[i].group
  {
    hide Settled;
    SpentAppend(data.usageLogs, Settled(log, GroupOf(data, log.userID)), data.users[i].id);
    SettledKeepsUser(log, GroupOf(data, log.userID));
  }

  lemma SettledKeepsUser(log: UsageLog, group: string)
    ensures Settled(log, group).userID == log.userID
  {
    hide HasPrefixFold;
  }

  /** Over every run: balance plus positive stored costs, and quota plus positive logged
      tokens, are constant for the account that pays for an id; every other account, one that
      shadows an earlier account of the same id included, is untouched. */
  lemma {:induction false} Conservation(data: PlatformData, logs: seq<UsageLog>, i: nat)
    requires i < |data.users|
    ensures var d := Run(data, logs);
            && |d.users| == |data.users|
            && (forall j :: 0 <= j < |data.users| ==> d.users[j].id == data.users[j].id)
            && d.users[i].group == data.users[i].group
            && (if IsPayer(data, i) then
                 && d.users[i].balance + Spent(d.usageLogs, data.users[i].id) == data.users[i].balance +
                    Spent(data.usageLogs, data.users[i].id)
                 && d.users[i].totalQuota + TokensUsed(d.usageLogs, data.users[i].id) as real
                      == data.users[i].totalQuota + TokensUsed(data.usageLogs, data.users[i].id) as real
                else d.users[i] == data.users[i])
            && ((forall log :: log in logs ==> log.userID != data.users[i].id) ==> d.users[i] == data.users[i])
  {
    if logs != [] {
      hide AfterLog;
      var init, last := logs[..|logs| - 1], logs[|logs| - 1];
      Conservation(data, init, i);
      StepConserves(Run(data, init), last, i);
      SamePayer(data, Run(data, init), i);
      assert last in logs;
      assert forall log :: log in init ==> log in logs;
    }
  }

  lemma SamePayer(data: PlatformData, d: PlatformData, i: nat)
    requires i < |data.users| == |d.users|
    requires forall j :: 0 <= j < |data.users| ==> d.users[j].id == data.users[j].id
    ensures IsPayer(data, i) <==> IsPayer(d, i)
  {}

  /** Model names with the prefix, in any case, are free for the VIP group, whatever was reported. */
  lemma VIPGeminiIsFree(data: PlatformData, log: UsageLog)
    requires GroupOf(data, log.userID) == "gemini_vip" && HasPrefixFold(log.modelAlias, "gemini")
    ensures var d := AfterLog(data, log);
            && d.usageLogs[|d.usageLogs| - 1].cost == 0.0
            && forall i :: 0 <= i < |data.users| ==> d.users[i].balance == data.users[i].balance
  {
    hide HasPrefixFold;
  }

  /** Validation refuses a user exactly when the charges have outrun what was there. */
  lemma {:induction false} OutOfFundsIff(data: PlatformData, logs: seq<UsageLog>, i: nat)
    requires IsPayer(data, i) && !data.users[i].disabled
    ensures var d := Run(data, logs);
            var id := data.users[i].id;
            |d.users| == |data.users| &&
            (GoodStanding(d.users[i]) <==>
              && (Spent(d.usageLogs, id) - Spent(data.usageLogs, id) <= data.users[i].balance ||
                 data.users[i].group == "gemini_vip")
              && (TokensUsed(d.usageLogs, id) - TokensUsed(data.usageLogs, id)) as real <= data.users[i].totalQuota)
  {
    hide AfterLog;
    Conservation(data, logs, i);
    EnabledThroughout(data, logs, i);
  }

  lemma {:induction false} EnabledThroughout(data: PlatformData, logs: seq<UsageLog>, i: nat)
    requires i < |data.users|
    ensures |Run(data, logs).users| == |data.users|
    ensures Run(data, logs).users[i].disabled == data.users[i].disabled
  {
    hide Settled;
    if logs != [] {
      EnabledThroughout(data, logs[..|logs| - 1], i);
    }
  }

  // ---- what is stored of what is reported ----

  /** The name begins with "gemini", each letter in either case or, for an i, dotted above. */
  predicate NamesGemini(s: string) {
    && |s| >= 6
    && s[0] in "gG" && s[1] in "eE" && s[2] in "mM" && s[3] in "iI\U{0130}" && s[4] in "nN" && s[5] in "iI\U{0130}"
  }

  lemma GeminiIff(s: string)
    ensures HasPrefixFold(s, "gemini") <==> NamesGemini(s)
  {
    var g := "gemini";
    assert |g| == 6 && g[0] == 'g' && g[1] == 'e' && g[2] == 'm' && g[3] == 'i' && g[4] == 'n' && g[5] == 'i';
  }

  /** The log as reported, at the cost it is stored with: nothing for a gemini model under the VIP
      group, the reported cost if there is one, else two millionths for each token. */
  function AsStored(log: UsageLog, vip: bool): UsageLog {
    log.(cost := if vip && NamesGemini(log.modelAlias) then 0.0
         else if log.cost != 0.0 || log.totalTokens <= 0 then log.cost
         else log.totalTokens as real * 2.0 / 1000000.0)
  }

  lemma SettledIs(log: UsageLog, group: string)
    ensures Settled(log, group) == AsStored(log, group == "gemini_vip")
  {
    GeminiIff(log.modelAlias);
    hide HasPrefixFold, NamesGemini;
  }

  lemma GroupStep(data: PlatformData, log: UsageLog, userID: string)
    ensures GroupOf(AfterLog(data, log), userID) == GroupOf(data, userID)
  {
    hide Settled, AfterLog;
    var d := AfterLog(data, log);
    assert |d.users| == |data.users| by { UsersStay(data, log); }
    forall i | 0 <= i < |data.users|
      ensures d.users[i].id == data.users[i].id && d.users[i].group == data.users[i].group
    {
      StepConserves(data, log, i);
    }
    var i, j := UserIndex(data, userID), UserIndex(d, userID);
    assert i < |data.users| ==> d.users[i].id == userID;
    assert j < |data.users| ==> data.users[j].id == userID;
  }

  lemma UsersStay(data: PlatformData, log: UsageLog)
    ensures |AfterLog(data, log).users| == |data.users|
  {
    hide Settled, Charged;
  }

  /** The group of the account that pays for an id never changes. */
  lemma {:induction false} GroupKept(data: PlatformData, logs: seq<UsageLog>, userID: string)
    ensures GroupOf(Run(data, logs), userID) == GroupOf(data, userID)
  {
    hide AfterLog, GroupOf;
    if logs != [] {
      GroupKept(data, logs[..|logs| - 1], userID);
      GroupStep(Run(data, logs[..|logs| - 1]), logs[|logs| - 1], userID);
    }
  }

  /** The first user of the id is in the VIP group. */
  predicate IsVIP(data: PlatformData, userID: string) {
    exists i :: && 0 <= i < |data.users| && data.users[i].id == userID && data.users[i].group == "gemini_vip"
                && forall j :: 0 <= j < i ==> data.users[j].id != userID
  }

  lemma VIPIff(data: PlatformData, userID: string)
    ensures IsVIP(data, userID) <==> GroupOf(data, userID) == "gemini_vip"
  {
    var u := UserIndex(data, userID);
    if GroupOf(data, userID) == "gemini_vip" {
      assert u < |data.users| && data.users[u].id == userID;
    }
  }

  /** Over every run the reported logs are stored in order, each at the cost that the group of its
      user settles, and nothing of the earlier log changes. */
  lemma {:induction false} LogsAreStored(data: PlatformData, logs: seq<UsageLog>)
    ensures var stored, n := Run(data, logs).usageLogs, |data.usageLogs|;
            && |stored| == n + |logs| && stored[..n] == data.usageLogs
            && forall i :: 0 <= i < |logs| ==>
                 stored[n + i] == AsStored(logs[i], IsVIP(data, logs[i].userID))
  {
    hide AfterLog, AsStored, GroupOf, IsVIP;
    if logs != [] {
      var init, last := logs[..|logs| - 1], logs[|logs| - 1];
      LogsAreStored(data, init);
      GroupKept(data, init, last.userID);
      LogStored(Run(data, init), last);
      VIPIff(data, last.userID);
    }
  }

  lemma LogStored(data: PlatformData, log: UsageLog)
    ensures AfterLog(data, log).usageLogs ==
            data.usageLogs + [AsStored(log, GroupOf(data, log.userID) == "gemini_vip")]
  {
    SettledIs(log, GroupOf(data, log.userID));
    hide Settled, Charged, AsStored, GroupOf;
  }

  /** When the key was last used: at the time of the last log that names it. */
  function LastUse(logs: seq<UsageLog>, keyID: string): Option<Time> {
    if logs == [] then None
    else if logs[|logs| - 1].apiKeyID == keyID then Some(logs[|logs| - 1].createdAt)
    else LastUse(logs[..|logs| - 1], keyID)
  }

  lemma KeyStep(data: PlatformData, log: UsageLog, k: nat)
    requires k < |data.apiKeys|
    ensures var keys := AfterLog(data, log).apiKeys;
            && |keys| == |data.apiKeys|
            && (forall j :: 0 <= j < |keys| ==> keys[j].id == data.apiKeys[j].id)
            && keys[k] == (if log.apiKeyID == data.apiKeys[k].id &&
                              forall j :: 0 <= j < k ==> data.apiKeys[j].id != data.apiKeys[k].id
                           then data.apiKeys[k].(lastUsedAt := log.createdAt) else data.apiKeys[k])
  {
    hide Settled, Charged, GroupOf, UserIndex;
    var i := FirstIndex(data.apiKeys, (k: APIKey) => k.id == log.apiKeyID);
    assert i < |data.apiKeys| ==> data.apiKeys[i].id == log.apiKeyID;
  }

  /** Over every run the first key of an id carries the time of the last log that names it, and
      nothing else about any key changes. */
  lemma {:induction false} KeysAreStamped(data: PlatformData, logs: seq<UsageLog>, k: nat)
    requires k < |data.apiKeys|
    ensures var keys := Run(data, logs).apiKeys;
            && |keys| == |data.apiKeys|
            && (forall j :: 0 <= j < |keys| ==> keys[j].id == data.apiKeys[j].id)
            && var key, at := data.apiKeys[k], LastUse(logs, data.apiKeys[k].id);
               var first := forall j :: 0 <= j < k ==> data.apiKeys[j].id != key.id;
               keys[k] == (if first && at.Some? then key.(lastUsedAt := at.value) else key)
  {
    hide AfterLog;
    if logs != [] {
      KeysAreStamped(data, logs[..|logs| - 1], k);
      KeyStep(Run(data, logs[..|logs| - 1]), logs[|logs| - 1], k);
    }
  }
}
