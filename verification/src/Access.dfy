/** API key validation: key, user standing, subscription and package. */
module Access {
  import opened Wrappers
  import opened Search
  import opened Timestamps
  import opened Domain

  datatype Grant = Grant(key: APIKey, package: ServicePackage, user: User)

  const VIP_GROUP := "gemini_vip"

  /** A row that entitles the user to the package at `now`. */
  predicate Entitles(s: Subscription, userID: string, packageID: string, now: Time) {
    s.userID == userID && s.packageID == packageID && s.active && s.expiresAt > now
  }

  predicate Entitled(subs: seq<Subscription>, userID: string, packageID: string, now: Time) {
    exists i :: 0 <= i < |subs| && Entitles(subs[i], userID, packageID, now)
  }

  method HasActiveSubscription(subs: seq<Subscription>, userID: string, packageID: string, now: Time) returns (b: bool)
    ensures b == Entitled(subs, userID, packageID, now)
  {
    for i := 0 to |subs|
      invariant forall j :: 0 <= j < i ==> !Entitles(subs[j], userID, packageID, now)
    {
      if Entitles(subs[i], userID, packageID, now) {
        return true;
      }
    }
    return false;
  }

  function KeyIndex(data: PlatformData, rawKey: string): (i: nat)
    ensures i <= |data.apiKeys|
  {
    FirstIndex(data.apiKeys, (k: APIKey) => k.key == rawKey && k.active)
  }

  function UserIndex(data: PlatformData, id: string): (i: nat)
    ensures i <= |data.users|
  {
    FirstIndex(data.users, (u: User) => u.id == id)
  }

  function PackageIndex(data: PlatformData, id: string): (i: nat)
    ensures i <= |data.packages|
  {
    FirstIndex(data.packages, (p: ServicePackage) => p.id == id)
  }

  predicate GoodStanding(u: User) {
    !u.disabled && (u.balance >= 0.0 || u.group == VIP_GROUP) && u.totalQuota >= 0.0
  }

  /** The only facts that acceptance depends on. */
  predicate Accepts(data: PlatformData, rawKey: string, now: Time) {
    var k := KeyIndex(data, rawKey);
    k < |data.apiKeys| &&
    var key := data.apiKeys[k];
    var u := UserIndex(data, key.userID);
    && key.userID != ""
    && u < |data.users| && GoodStanding(data.users[u])
    && Entitled(data.subscriptions, key.userID, key.packageID, now)
    && PackageIndex(data, key.packageID) < |data.packages|
  }

  function GrantOf(data: PlatformData, rawKey: string, now: Time): Grant
    requires Accepts(data, rawKey, now)
  {
    var key := data.apiKeys[KeyIndex(data, rawKey)];
    Grant(key, data.packages[PackageIndex(data, key.packageID)], data.users[UserIndex(data, key.userID)])
  }

  const NO_KEY := "invalid api key"
  const USER_DISABLED := "user account disabled"
  const NO_BALANCE := "insufficient balance"
  const NO_QUOTA := "insufficient quota"
  const NO_USER := "user not found"
  const NO_SUBSCRIPTION := "subscription inactive or expired for api key"
  const NO_PACKAGE := "package not found for api key"

  /** What is held against a request, in the order in which it is looked for. */
  function Objections(data: PlatformData, rawKey: string, now: Time): seq<(bool, string)> {
    var k := KeyIndex(data, rawKey);
    if k == |data.apiKeys| then [(true, NO_KEY)]
    else
      var key := data.apiKeys[k];
      var u := UserIndex(data, key.userID);
      var known := u < |data.users|;
      [(known && data.users[u].disabled, USER_DISABLED),
       (known && data.users[u].balance < 0.0 && data.users[u].group != VIP_GROUP, NO_BALANCE),
       (known && data.users[u].totalQuota < 0.0, NO_QUOTA),
       (!known || key.userID == "", NO_USER),
       (!Entitled(data.subscriptions, key.userID, key.packageID, now), NO_SUBSCRIPTION),
       (PackageIndex(data, key.packageID) == |data.packages|, NO_PACKAGE)]
  }

  /** The first objection that holds. */
  function Refusal(data: PlatformData, rawKey: string, now: Time): Option<string> {
    var objections := Objections(data, rawKey, now);
    var i := FirstIndex(objections, (o: (bool, string)) => o.0);
    if i == |objections| then None else Some(objections[i].1)
  }

  /** A request is accepted exactly when nothing is held against it. */
  lemma AcceptsIff(data: PlatformData, rawKey: string, now: Time)
    ensures Accepts(data, rawKey, now) <==> Refusal(data, rawKey, now).None?
  {
    hide Entitled;
    var o := Objections(data, rawKey, now);
    if KeyIndex(data, rawKey) < |data.apiKeys| {
      assert o[0].0 || o[1].0 || o[2].0 || o[3].0 || o[4].0 || o[5].0 <==> !Accepts(data, rawKey, now);
    } else {
      assert o[0].0;
    }
  }

  method ValidateAPIKey(data: PlatformData, rawKey: string, now: Time) returns (r: Result<Grant>)
    ensures r.Success? <==> Accepts(data, rawKey, now)
    ensures r.Success? ==> r.value == GrantOf(data, rawKey, now)
    ensures r.Failure? ==> Refusal(data, rawKey, now) == Some(r.error)
  {
    hide Entitled;
    AcceptsIff(data, rawKey, now);
    ghost var objections := Objections(data, rawKey, now);
    var k := FindFirst(data.apiKeys, (k: APIKey) => k.key == rawKey && k.active);
    if k == |data.apiKeys| {
      return Failure(NO_KEY);
    }
    var key := data.apiKeys[k];
    var u := FindFirst(data.users, (u: User) => u.id == key.userID);
    if u < |data.users| {
      if data.users[u].disabled {
        assert objections[0].0;
        return Failure(USER_DISABLED);
      }
      if data.users[u].balance < 0.0 && data.users[u].group != VIP_GROUP {
        assert objections[1].0;
        return Failure(NO_BALANCE);
      }
      if data.users[u].totalQuota < 0.0 {
        assert objections[2].0;
        return Failure(NO_QUOTA);
      }
    }
    if u == |data.users| || data.users[u].id == "" {
      assert objections[3].0;
      return Failure(NO_USER);
    }
    var entitled := HasActiveSubscription(data.subscriptions, key.userID, key.packageID, now);
    if !entitled {
      assert objections[4].0;
      return Failure(NO_SUBSCRIPTION);
    }
    var p := FindFirst(data.packages, (p: ServicePackage) => p.id == key.packageID);
    if p == |data.packages| {
      assert objections[5].0;
      return Failure(NO_PACKAGE);
    }
    return Success(Grant(key, data.packages[p], data.users[u]));
  }

  // ---- acceptance on the rows ----

  /** The request is granted on key row `k`, user row `u` and package row `p`. */
  ghost predicate GrantedOn(data: PlatformData, rawKey: string, now: Time, k: nat, u: nat, p: nat) {
    && k < |data.apiKeys| && u < |data.users| && p < |data.packages|
    && data.apiKeys[k].key == rawKey && data.apiKeys[k].active
    && (forall j :: 0 <= j < k ==> data.apiKeys[j].key != rawKey || !data.apiKeys[j].active)
    && data.apiKeys[k].userID != "" && data.users[u].id == data.apiKeys[k].userID
    && (forall j :: 0 <= j < u ==> data.users[j].id != data.apiKeys[k].userID)
    && !data.users[u].disabled && data.users[u].totalQuota >= 0.0
    && (data.users[u].group == "gemini_vip" || data.users[u].balance >= 0.0)
    && (exists i :: && 0 <= i < |data.subscriptions|
                    && data.subscriptions[i].userID == data.apiKeys[k].userID
                    && data.subscriptions[i].packageID == data.apiKeys[k].packageID
                    && data.subscriptions[i].active && now < data.subscriptions[i].expiresAt)
    && data.packages[p].id == data.apiKeys[k].packageID
    && (forall j :: 0 <= j < p ==> data.packages[j].id != data.apiKeys[k].packageID)
  }

  /** Acceptance and the grant, read off the rows. */
  lemma AcceptedOnRows(data: PlatformData, rawKey: string, now: Time)
    ensures Accepts(data, rawKey, now) <==> exists k: nat, u: nat, p: nat :: GrantedOn(data, rawKey, now, k, u, p)
    ensures forall k: nat, u: nat, p: nat :: Accepts(data, rawKey, now) && GrantedOn(data, rawKey, now, k, u, p) ==>
              GrantOf(data, rawKey, now) == Grant(data.apiKeys[k], data.packages[p], data.users[u])
  {
    var k := KeyIndex(data, rawKey);
    if Accepts(data, rawKey, now) {
      var key := data.apiKeys[k];
      var i :| 0 <= i < |data.subscriptions| && Entitles(data.subscriptions[i], key.userID, key.packageID, now);
      assert GrantedOn(data, rawKey, now, k, UserIndex(data, key.userID), PackageIndex(data, key.packageID));
    }
    forall k': nat, u: nat, p: nat | GrantedOn(data, rawKey, now, k', u, p)
      ensures k' == k && k < |data.apiKeys| && Accepts(data, rawKey, now)
      ensures u == UserIndex(data, data.apiKeys[k].userID) && p == PackageIndex(data, data.apiKeys[k].packageID)
    {
      var i :| && 0 <= i < |data.subscriptions|
               && data.subscriptions[i].userID == data.apiKeys[k'].userID
               && data.subscriptions[i].packageID == data.apiKeys[k'].packageID
               && data.subscriptions[i].active && now < data.subscriptions[i].expiresAt;
      assert k' == k;
      assert Entitles(data.subscriptions[i], data.apiKeys[k].userID, data.apiKeys[k].packageID, now);
    }
  }
}
