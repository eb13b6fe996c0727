/** Per-model quota protection: which model groups an account is withheld from. */
module QuotaProtection {
  import opened Wrappers
  import opened Search

  datatype ModelQuota = ModelQuota(name: string, percentage: int)

  datatype Account = Account(quota: seq<ModelQuota>, protectedModels: set<string>,
                             proxyDisabled: bool, proxyDisabledReason: Option<string>, proxyDisabledAt: Option<int>)

  datatype Summary = Summary(id: string, protectedModels: set<string>)

  datatype Config = Config(enabled: bool, thresholdPercentage: nat, monitoredModels: seq<string>)

  /** The u32 threshold reinterpreted as an i32. */
  function Threshold(c: Config): int {
    var n := c.thresholdPercentage % 0x1_0000_0000;
    if n < 0x8000_0000 then n else n - 0x1_0000_0000
  }

  /** The group is at or below the threshold: the threshold reaches the full quota, or some model
      of the group is at or below it. */
  ghost predicate Low(models: seq<ModelQuota>, normalize: string -> Option<string>, group: string, threshold: int) {
    threshold >= 100 || exists m :: m in models && normalize(m.name) == Some(group) && m.percentage <= threshold
  }

  /** Monitored groups are protected exactly when low; the others are left as they were. */
  ghost function Protection(before: set<string>, models: seq<ModelQuota>, normalize: string -> Option<string>,
                            c: Config): set<string> {
    (set g | g in before && g !in c.monitoredModels)
    + (set g | g in c.monitoredModels && Low(models, normalize, g, Threshold(c)))
  }

  const QUOTA_REASON := "quota_protection"

  ghost function AfterQuota(a: Account, models: seq<ModelQuota>, normalize: string -> Option<string>,
                            config: Option<Config>): Account {
    var b := a.(quota := models);
    if config.None? || !config.value.enabled then b
    else
      var c := b.(protectedModels := Protection(a.protectedModels, models, normalize, config.value));
      if a.proxyDisabled && a.proxyDisabledReason == Some(QUOTA_REASON)
      then c.(proxyDisabled := false, proxyDisabledReason := None, proxyDisabledAt := None)
      else c
  }

  /** `m` is the least of 100 and the group's percentages. */
  ghost predicate IsGroupMinimum(models: seq<ModelQuota>, normalize: string -> Option<string>, group: string, m: int) {
    && m <= 100
    && (forall q :: q in models && normalize(q.name) == Some(group) ==> m <= q.percentage)
    && (m == 100 || exists q :: q in models && normalize(q.name) == Some(group) && q.percentage == m)
  }

  lemma LowIffMinimum(models: seq<ModelQuota>, normalize: string -> Option<string>, group: string, m: int,
                      threshold: int)
    requires IsGroupMinimum(models, normalize, group, m)
    ensures m <= threshold <==> Low(models, normalize, group, threshold)
  {}

  lemma MinimumStep(models: seq<ModelQuota>, normalize: string -> Option<string>, q: ModelQuota, group: string, m: int)
    requires IsGroupMinimum(models, normalize, group, m)
    ensures IsGroupMinimum(models + [q], normalize, group, if normalize(q.name) == Some(group) && q.percentage < m
            then q.percentage else m)
  {
    var all := models + [q];
    assert q in all && forall x :: x in models ==> x in all;
    assert forall x :: x in all ==> x in models || x == q;
  }

  method GroupMinimums(models: seq<ModelQuota>, normalize: string -> Option<string>) returns (mins: map<string, int>)
    ensures forall g :: IsGroupMinimum(models, normalize, g, if g in mins then mins[g] else 100)
  {
    hide IsGroupMinimum;
    mins := map[];
    forall g ensures IsGroupMinimum([], normalize, g, 100) { MinimumOfNone(normalize, g); }
    assert models[..0] == [];
    for i := 0 to |models|
      invariant forall g :: IsGroupMinimum(models[..i], normalize, g, if g in mins then mins[g] else 100)
    {
      ghost var before := mins;
      var std := normalize(models[i].name);
      if std.Some? {
        var entry := if std.value in mins then mins[std.value] else 100;
        mins := mins[std.value := if models[i].percentage < entry then models[i].percentage else entry];
      }
      assert models[..i + 1] == models[..i] + [models[i]];
      forall g
        ensures IsGroupMinimum(models[..i + 1], normalize, g, if g in mins then mins[g] else 100)
      {
        MinimumStep(models[..i], normalize, models[i], g, if g in before then before[g] else 100);
      }
    }
    assert models[..|models|] == models;
  }

  lemma MinimumOfNone(normalize: string -> Option<string>, g: string)
    ensures IsGroupMinimum([], normalize, g, 100)
  {}

  method ApplyProtection(before: set<string>, models: seq<ModelQuota>, normalize: string -> Option<string>, c: Config)
    returns (after: set<string>)
    ensures after == Protection(before, models, normalize, c)
  {
    hide Low, IsGroupMinimum;
    var threshold := Threshold(c);
    var mins := GroupMinimums(models, normalize);
    after := before;
    for i := 0 to |c.monitoredModels|
      invariant forall g :: g in after <==>
                if g in c.monitoredModels[..i] then Low(models, normalize, g, threshold) else g in before
    {
      var std := c.monitoredModels[i];
      var min := if std in mins then mins[std] else 100;
      LowIffMinimum(models, normalize, std, min, threshold);
      if min <= threshold {
        if std !in after {
          after := after + {std};
        }
      } else {
        if std in after {
          after := after - {std};
        }
      }
      assert c.monitoredModels[..i + 1] == c.monitoredModels[..i] + [std];
    }
    assert c.monitoredModels[..|c.monitoredModels|] == c.monitoredModels;
  }

  class Accounts {
    var files: map<string, Account>
    var index: seq<Summary>

    /** The account file is saved first, then the first index entry of the account follows it. */
    method UpdateAccountQuota(id: string, models: seq<ModelQuota>, normalize: string -> Option<string>,
                              config: Option<Config>)
      returns (r: Result<()>)
      modifies this
      ensures r.Success? <==> id in old(files)
      ensures r.Failure? ==> files == old(files) && index == old(index)
      ensures r.Success? ==>
                && files == old(files)[id := AfterQuota(old(files)[id], models, normalize, config)]
                && var k := FirstIndex(old(index), (s: Summary) => s.id == id);
                   index == if k == |old(index)| then old(index)
                       else old(index)[k := Summary(id, files[id].protectedModels)]
    {
      hide Protection;
      if id !in files {
        return Failure("account not found");
      }
      var account := files[id].(quota := models);
      if config.Some? && config.value.enabled {
        var after := ApplyProtection(account.protectedModels, models, normalize, config.value);
        account := account.(protectedModels := after);
        if account.proxyDisabled && account.proxyDisabledReason == Some(QUOTA_REASON) {
          account := account.(proxyDisabled := false, proxyDisabledReason := None, proxyDisabledAt := None);
        }
      }
      files := files[id := account];
      var k := FindFirst(index, (s: Summary) => s.id == id);
      if k < |index| {
        index := index[k := index[k].(protectedModels := account.protectedModels)];
      }
      return Success(());
    }
  }

  // ---- what protection means ----

  /** Only which quotas are reported matters, not their order or repetition. */
  lemma ProtectionOrderFree(before: set<string>, models: seq<ModelQuota>, models': seq<ModelQuota>,
                            normalize: string -> Option<string>, c: Config)
    requires forall m :: m in models <==> m in models'
    ensures Protection(before, models, normalize, c) == Protection(before, models', normalize, c)
  {
    forall g
      ensures Low(models, normalize, g, Threshold(c)) <==> Low(models', normalize, g, Threshold(c))
    {}
  }

  /** The next report alone decides: whatever earlier reports protected among the monitored groups
      is forgotten, and reporting the same quotas again changes nothing. */
  lemma LastReportDecides(a: Account, earlier: seq<ModelQuota>, models: seq<ModelQuota>,
                          normalize: string -> Option<string>, config: Option<Config>)
    ensures var once := AfterQuota(a, models, normalize, config);
            && AfterQuota(AfterQuota(a, earlier, normalize, config), models, normalize, config) == once
            && AfterQuota(once, models, normalize, config) == once
  {
    hide Low;
    if config.Some? {
      var c := config.value;
      assert forall ms: seq<ModelQuota> ::
             Protection(Protection(a.protectedModels, ms, normalize, c), models, normalize, c)
                                           == Protection(a.protectedModels, models, normalize, c);
    }
  }

  /** Lower percentages, more reports or a higher threshold never unprotect a group. */
  lemma ProtectionMonotone(before: set<string>, models: seq<ModelQuota>, models': seq<ModelQuota>,
                           normalize: string -> Option<string>, c: Config, c': Config)
    requires c.monitoredModels == c'.monitoredModels && Threshold(c) <= Threshold(c')
    requires forall m :: m in models ==> exists m' ::
             m' in models' && normalize(m'.name) == normalize(m.name) && m'.percentage <= m.percentage
    ensures Protection(before, models, normalize, c) <= Protection(before, models', normalize, c')
  {
    forall g | Low(models, normalize, g, Threshold(c))
      ensures Low(models', normalize, g, Threshold(c'))
    {
      if Threshold(c) < 100 {
        var m :| m in models && normalize(m.name) == Some(g) && m.percentage <= Threshold(c);
        var m' :| m' in models' && normalize(m'.name) == normalize(m.name) && m'.percentage <= m.percentage;
      }
    }
  }

  /** The threshold is the configured number read as a signed one: the same modulo 2^32. */
  lemma ThresholdIff(c: Config, t: int)
    ensures Threshold(c) == t <==> -0x8000_0000 <= t < 0x8000_0000 && (c.thresholdPercentage - t) % 0x1_0000_0000 == 0
  {
    var n := c.thresholdPercentage;
    var q := n / 0x1_0000_0000;
    assert n == q * 0x1_0000_0000 + n % 0x1_0000_0000;
    if -0x8000_0000 <= t < 0x8000_0000 && (n - t) % 0x1_0000_0000 == 0 {
      var k := (n - t) / 0x1_0000_0000;
      assert n - t == k * 0x1_0000_0000;
    }
  }

  /** What a report does to the account, model by model: with protection on, a monitored group is
      protected exactly when the threshold reaches a hundred or some reported model of the group is
      at or below it, any other group stays as it was, and a switch-off of the whole account is
      lifted exactly when it was made for the quota; with protection off only the quota changes. */
  lemma ReportEffect(a: Account, models: seq<ModelQuota>, normalize: string -> Option<string>, config: Option<Config>)
    ensures var b := AfterQuota(a, models, normalize, config);
            var on := config.Some? && config.value.enabled;
            var lifted := on && a.proxyDisabled && a.proxyDisabledReason == Some("quota_protection");
            && b.quota == models
            && (forall g :: g in b.protectedModels <==>
                 if on && g in config.value.monitoredModels then
                   || Threshold(config.value) >= 100
                   || exists i :: && 0 <= i < |models| && normalize(models[i].name) == Some(g)
                                  && models[i].percentage <= Threshold(config.value)
                 else g in a.protectedModels)
            && (b.proxyDisabled <==> a.proxyDisabled && !lifted)
            && b.proxyDisabledReason == (if lifted then None else a.proxyDisabledReason)
            && b.proxyDisabledAt == (if lifted then None else a.proxyDisabledAt)
  {
    hide Threshold;
    forall m | m in models
      ensures exists i :: 0 <= i < |models| && models[i] == m
    {}
  }
}
