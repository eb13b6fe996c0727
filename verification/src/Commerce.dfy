/** Checkout, payment and the subscriptions and keys they grant. */
module Commerce {
  import opened Wrappers
  import opened Text
  import opened Search
  import opened Timestamps
  import opened Domain
  import opened Access

  const PAYMENT_PROVIDER := "mockpay"
  const CURRENCY := "CNY"
  const NO_PAYMENT := "payment not found"
  const NO_ORDER := "order not found"
  const DAY_NANOS := 86_400_000_000_000

  datatype CheckoutResult = CheckoutResult(order: Order, payment: Payment, apiKey: Option<APIKey>)

  /** The random parts of the identifiers one payment may create. */
  datatype PaymentIDs = PaymentIDs(event: string, subscription: string, key: string, secret: string)

  function BillingCycleDuration(cycle: string): (d: int)
    ensures d > 0
  {
    if TrimSpace(cycle) == "yearly" then 365 * DAY_NANOS else 30 * DAY_NANOS
  }

  function DefaultBillingCycle(cycle: string): string {
    if TrimSpace(cycle) == "" then "monthly" else TrimSpace(cycle)
  }

  // ---- lookups ----

  function PaymentIndex(payments: seq<Payment>, id: string): (i: nat)
    ensures i <= |payments|
  {
    FirstIndex(payments, (p: Payment) => p.id == id)
  }

  function OrderIndex(orders: seq<Order>, id: string): (i: nat)
    ensures i <= |orders|
  {
    FirstIndex(orders, (o: Order) => o.id == id)
  }

  function SubIndex(subs: seq<Subscription>, userID: string, packageID: string): (i: nat)
    ensures i <= |subs|
  {
    FirstIndex(subs, (s: Subscription) => s.userID == userID && s.packageID == packageID)
  }

  // ---- the effect of a checkout ----

  function CheckoutAllowed(data: PlatformData, userID: string, packageID: string, bindAPIKeyID: string): bool {
    && FirstIndex(data.packages, (p: ServicePackage) => p.id == packageID && p.isActive) < |data.packages|
    && (bindAPIKeyID == "" ||
        FirstIndex(data.apiKeys, (k: APIKey) => k.id == bindAPIKeyID && k.userID == userID) < |data.apiKeys|)
  }

  function NewOrder(pkg: ServicePackage, userID: string, packageID: string, bindAPIKeyID: string, createAPIKey: bool,
                    autoRenew: bool, orderID: string, paymentID: string, now: Time): Order {
    Order("order-" + orderID, userID, packageID, false, pkg.priceCents, CURRENCY, DefaultBillingCycle(pkg.billingCycle),
          autoRenew, bindAPIKeyID, createAPIKey, now, None, "pay-" + paymentID, "")
  }

  function NewPayment(o: Order, now: Time): Payment {
    Payment(o.paymentID, o.id, o.userID, PAYMENT_PROVIDER, false, o.amountCents, o.currency, "", now, None)
  }

  function AfterCheckout(data: PlatformData, userID: string, packageID: string, bindAPIKeyID: string,
                         createAPIKey: bool,
                         autoRenew: bool, orderID: string, paymentID: string, now: Time): (d: PlatformData)
    ensures CheckoutAllowed(data, userID, packageID, bindAPIKeyID) ==>
              |d.orders| == |data.orders| + 1 && |d.payments| == |data.payments| + 1
  {
    if CheckoutAllowed(data, userID, packageID, bindAPIKeyID) then
      var pkg := data.packages[FirstIndex(data.packages, (p: ServicePackage) => p.id == packageID && p.isActive)];
      var order := NewOrder(pkg, userID, packageID, bindAPIKeyID, createAPIKey, autoRenew, orderID, paymentID, now);
      data.(orders := data.orders + [order], payments := data.payments + [NewPayment(order, now)])
    else data
  }

  // ---- the effect of a payment ----

  function PaidPayment(p: Payment, providerRef: string, now: Time): Payment {
    p.(paid := true, providerRef := TrimSpace(providerRef), completedAt := Some(now))
  }

  function PaidOrder(o: Order, subscriptionID: string, now: Time): Order {
    o.(paid := true, completedAt := Some(now), subscriptionID := subscriptionID)
  }

  function Extended(s: Subscription, o: Order, now: Time): Subscription {
    var startAt := if s.expiresAt > now then s.expiresAt else now;
    s.(active := true, orderID := o.id, autoRenew := o.autoRenew,
       expiresAt := startAt + BillingCycleDuration(o.billingCycle))
  }

  function NewSubscription(id: string, o: Order, now: Time): Subscription {
    Subscription("sub-" + id, o.userID, o.packageID, o.id, true, now,
                 now + BillingCycleDuration(o.billingCycle), o.autoRenew)
  }

  /** The subscriptions after an order is paid, and the row that carries it. */
  function Subscribed(subs: seq<Subscription>, o: Order, id: string, now: Time): (r: (seq<Subscription>, Subscription))
  {
    var s := SubIndex(subs, o.userID, o.packageID);
    if s < |subs| then (subs[s := Extended(subs[s], o, now)], Extended(subs[s], o, now))
    else (subs + [NewSubscription(id, o, now)], NewSubscription(id, o, now))
  }

  function NewKey(ids: PaymentIDs, userID: string, packageID: string, now: Time): APIKey {
    APIKey("key-" + ids.key, "usp_" + ids.secret, userID, packageID, true, now, 0)
  }

  function Keyed(keys: seq<APIKey>, o: Order, ids: PaymentIDs, now: Time): seq<APIKey> {
    if o.bindAPIKeyID != "" then
      var k := FirstIndex(keys, (k: APIKey) => k.id == o.bindAPIKeyID);
      if k < |keys| then keys[k := keys[k].(packageID := o.packageID)] else keys
    else if o.createAPIKey then keys + [NewKey(ids, o.userID, o.packageID, now)]
    else keys
  }

  predicate Payable(data: PlatformData, paymentID: string) {
    var p := PaymentIndex(data.payments, paymentID);
    p < |data.payments| && OrderIndex(data.orders, data.payments[p].orderID) < |data.orders|
  }

  function AfterPayment(data: PlatformData, paymentID: string, providerRef: string, ids: PaymentIDs,
                        now: Time): PlatformData
    requires Payable(data, paymentID)
  {
    var p := PaymentIndex(data.payments, paymentID);
    var o := OrderIndex(data.orders, data.payments[p].orderID);
    var (subs, sub) := Subscribed(data.subscriptions, data.orders[o], ids.subscription, now);
    data.(payments := data.payments[p := PaidPayment(data.payments[p], providerRef, now)],
          webhookEvents := data.webhookEvents
                           + [WebhookEvent("wh-" + ids.event, data.payments[p].provider, data.payments[p].id, now)],
          orders := data.orders[o := PaidOrder(data.orders[o], sub.id, now)],
          subscriptions := subs,
          apiKeys := Keyed(data.apiKeys, data.orders[o], ids, now))
  }

  /** What a completed payment reports: the records as stored, and the key if one was created. */
  function CompletionOf(data: PlatformData, paymentID: string, providerRef: string, ids: PaymentIDs,
                        now: Time): CheckoutResult
    requires Payable(data, paymentID)
  {
    var p := PaymentIndex(data.payments, paymentID);
    var o := OrderIndex(data.orders, data.payments[p].orderID);
    var d := AfterPayment(data, paymentID, providerRef, ids, now);
    var order := data.orders[o];
    CheckoutResult(d.orders[o], d.payments[p],
                   if order.bindAPIKeyID == "" && order.createAPIKey
                       then Some(NewKey(ids, order.userID, order.packageID, now)) else None)
  }

  /** How a completion ends. */
  function CompletionResult(data: PlatformData, paymentID: string, providerRef: string, ids: PaymentIDs,
                            now: Time): Result<CheckoutResult> {
    if Payable(data, paymentID) then Success(CompletionOf(data, paymentID, providerRef, ids, now))
    else if PaymentIndex(data.payments, paymentID) == |data.payments| then Failure(NO_PAYMENT)
    else Failure(NO_ORDER)
  }

  /** The latest key of the user for the package. */
  function LatestKey(keys: seq<APIKey>, userID: string, packageID: string): Option<APIKey> {
    if keys == [] then None
    else
      var last := keys[|keys| - 1];
      if last.userID == userID && last.packageID == packageID then Some(last)
      else LatestKey(keys[..|keys| - 1], userID, packageID)
  }

  function OwnedBy(userID: string): APIKey -> bool {
    (k: APIKey) => k.userID == userID
  }

  lemma {:induction false} LatestOwnKey(keys: seq<APIKey>, userID: string, packageID: string)
    ensures LatestKey(Filter(keys, OwnedBy(userID)), userID, packageID) == LatestKey(keys, userID, packageID)
  {
    if keys != [] {
      var init, last := keys[..|keys| - 1], keys[|keys| - 1];
      var own := Filter(init, OwnedBy(userID));
      LatestOwnKey(init, userID, packageID);
      assert own + [] == own && (own + [last])[..|own|] == own;
    }
  }

  /** What is reported of an order that is paid: with its key, when it was to create one. */
  function ReportOf(data: PlatformData, order: Order, payment: Payment, userID: string): Result<CheckoutResult> {
    if !order.createAPIKey then Success(CheckoutResult(order, payment, None))
    else if userID == "" || UserIndex(data, userID) == |data.users| then Failure(NO_USER)
    else Success(CheckoutResult(order, payment, LatestKey(data.apiKeys, userID, order.packageID)))
  }

  /** The payment behind an order is found and already paid. */
  predicate AlreadyPaid(data: PlatformData, o: Order) {
    var p := PaymentIndex(data.payments, o.paymentID);
    p < |data.payments| && data.payments[p].paid
  }

  function OwnOrderIndex(data: PlatformData, userID: string, orderID: string): (i: nat)
    ensures i <= |data.orders|
  {
    FirstIndex(data.orders, (o: Order) => o.id == orderID && o.userID == userID)
  }

  // ---- the stateful service ----

  class Store {
    var data: PlatformData

    method CreateCheckoutOrder(userID: string, packageID: string, bindAPIKeyID: string, createAPIKey: bool,
                               autoRenew: bool,
                               orderID: string, paymentID: string, now: Time) returns (r: Result<CheckoutResult>)
      modifies this
      ensures r.Success? <==> CheckoutAllowed(old(data), userID, packageID, bindAPIKeyID)
      ensures data == AfterCheckout(old(data), userID, packageID, bindAPIKeyID, createAPIKey, autoRenew, orderID,
              paymentID, now)
      ensures r.Success? ==>
                && r.value.order == data.orders[|old(data).orders|]
                && r.value.payment == data.payments[|old(data).payments|]
    {
      hide DefaultBillingCycle;
      var p := FindFirst(data.packages, (p: ServicePackage) => p.id == packageID && p.isActive);
      if p == |data.packages| {
        return Failure("package not found");
      }
      if bindAPIKeyID != "" {
        var k := FindFirst(data.apiKeys, (k: APIKey) => k.id == bindAPIKeyID && k.userID == userID);
        if k == |data.apiKeys| {
          return Failure("api key not found for user");
        }
      }
      var order := NewOrder(data.packages[p], userID, packageID, bindAPIKeyID, createAPIKey, autoRenew, orderID,
          paymentID, now);
      var payment := NewPayment(order, now);
      data := data.(orders := data.orders + [order], payments := data.payments + [payment]);
      return Success(CheckoutResult(order, payment, None));
    }

    /** The subscription an order is for: extended from its expiry if still live, or begun now. */
    static method Subscribe(subs0: seq<Subscription>, order: Order, id: string, now: Time)
      returns (subs: seq<Subscription>, sub: Subscription)
      ensures (subs, sub) == Subscribed(subs0, order, id, now)
    {
      hide BillingCycleDuration;
      subs := subs0;
      var startAt := now;
      var s := FindFirst(subs, (s: Subscription) => s.userID == order.userID && s.packageID == order.packageID);
      if s < |subs| {
        sub := subs[s];
        if sub.expiresAt > now {
          startAt := sub.expiresAt;
        }
        sub := sub.(active := true, orderID := order.id, autoRenew := order.autoRenew);
        sub := sub.(expiresAt := startAt + BillingCycleDuration(order.billingCycle));
        subs := subs[s := sub];
      } else {
        sub := Subscription("sub-" + id, order.userID, order.packageID, order.id, true, now,
                            startAt + BillingCycleDuration(order.billingCycle), order.autoRenew);
        subs := subs + [sub];
      }
    }

    /** The key an order is for: rebound, or created. */
    static method GrantKey(keys0: seq<APIKey>, order: Order, ids: PaymentIDs, now: Time)
      returns (keys: seq<APIKey>, created: Option<APIKey>)
      ensures keys == Keyed(keys0, order, ids, now)
      ensures created == if order.bindAPIKeyID == "" && order.createAPIKey
              then Some(NewKey(ids, order.userID, order.packageID, now)) else None
    {
      keys, created := keys0, None;
      if order.bindAPIKeyID != "" {
        var k := FindFirst(keys, (k: APIKey) => k.id == order.bindAPIKeyID);
        if k < |keys| {
          keys := keys[k := keys[k].(packageID := order.packageID)];
        }
      } else if order.createAPIKey {
        var key := NewKey(ids, order.userID, order.packageID, now);
        keys := keys + [key];
        created := Some(key);
      }
    }

    /** Nothing is saved when the order is missing, though the payment was already marked. */
    method CompletePayment(paymentID: string, providerRef: string, ids: PaymentIDs, now: Time)
      returns (r: Result<CheckoutResult>)
      modifies this
      ensures r == CompletionResult(old(data), paymentID, providerRef, ids, now)
      ensures data == if r.Success? then AfterPayment(old(data), paymentID, providerRef, ids, now) else old(data)
    {
      hide Subscribed, Keyed, TrimSpace, NewKey;
      var p := FindFirst(data.payments, (p: Payment) => p.id == paymentID);
      if p == |data.payments| {
        return Failure(NO_PAYMENT);
      }
      var payment := data.payments[p];
      payment := payment.(paid := true);
      payment := payment.(providerRef := TrimSpace(providerRef));
      payment := payment.(completedAt := Some(now));
      var events := data.webhookEvents + [WebhookEvent("wh-" + ids.event, payment.provider, payment.id, now)];
      var o := FindFirst(data.orders, (o: Order) => o.id == payment.orderID);
      if o == |data.orders| {
        return Failure(NO_ORDER);
      }
      var order := data.orders[o];
      var subs, sub := Subscribe(data.subscriptions, order, ids.subscription, now);
      var keys, created := GrantKey(data.apiKeys, order, ids, now);
      order := order.(paid := true, completedAt := Some(now));
      order := order.(subscriptionID := sub.id);
      data := data.(payments := data.payments[p := payment], webhookEvents := events, orders := data.orders[o := order],
                    subscriptions := subs, apiKeys := keys);
      return Success(CheckoutResult(order, payment, created));
    }

    /** The report of a paid order. The keys of the user are gathered and searched backwards. */
    method ReportPaid(order: Order, payment: Payment, userID: string) returns (r: Result<CheckoutResult>)
      ensures r == ReportOf(data, order, payment, userID)
    {
      hide Filter;
      if !order.createAPIKey {
        return Success(CheckoutResult(order, payment, None));
      }
      var u := FindFirst(data.users, (u: User) => u.id == userID);
      if u == |data.users| || data.users[u].id == "" {
        return Failure(NO_USER);
      }
      var keys := Filter(data.apiKeys, OwnedBy(userID));
      LatestOwnKey(data.apiKeys, userID, order.packageID);
      FilterMembers(data.apiKeys, OwnedBy(userID));
      assert keys[..|keys|] == keys;
      for i := |keys| downto 0
        invariant LatestKey(keys[..i], userID, order.packageID) == LatestKey(keys, userID, order.packageID)
      {
        assert keys[i] in keys;
        assert keys[..i + 1][..i] == keys[..i];
        if keys[i].packageID == order.packageID {
          return Success(CheckoutResult(order, payment, Some(keys[i])));
        }
      }
      return Success(CheckoutResult(order, payment, None));
    }

    /** Confirming reads first: a payment that is already paid is reported, not applied again. */
    method ConfirmUserOrderPayment(userID: string, orderID: string, ids: PaymentIDs, now: Time)
      returns (r: Result<CheckoutResult>)
      modifies this
      ensures data == AfterConfirm(old(data), userID, orderID, ids, now)
      ensures r == ConfirmResult(old(data), userID, orderID, ids, now)
    {
      hide Payable, AfterPayment, CompletionOf, ReportOf, TrimSpace;
      var o := FindFirst(data.orders, (o: Order) => o.id == orderID && o.userID == userID);
      if o == |data.orders| || data.orders[o].id == "" {
        return Failure(NO_ORDER);
      }
      var order := data.orders[o];
      if TrimSpace(order.paymentID) == "" {
        return Failure(NO_PAYMENT);
      }
      var p := FindFirst(data.payments, (p: Payment) => p.id == order.paymentID);
      if p < |data.payments| && data.payments[p].paid {
        r := ReportPaid(order, data.payments[p], userID);
        return;
      }
      r := CompletePayment(order.paymentID, "manual-confirmed", ids, now);
    }

    method AdminConfirmOrderPayment(orderID: string, ids: PaymentIDs, now: Time) returns (r: Result<CheckoutResult>)
      modifies this
      ensures var o := OrderIndex(old(data).orders, orderID);
              if o < |old(data).orders| then
                && data == AfterConfirm(old(data), old(data).orders[o].userID, orderID, ids, now)
                && r == ConfirmResult(old(data), old(data).orders[o].userID, orderID, ids, now)
              else data == old(data) && r == Failure(NO_ORDER)
    {
      hide AfterPayment, Payable, AlreadyPaid, CompletionResult, ReportOf, TrimSpace;
      var o := FindFirst(data.orders, (o: Order) => o.id == orderID);
      if o == |data.orders| || data.orders[o].id == "" {
        return Failure(NO_ORDER);
      }
      r := ConfirmUserOrderPayment(data.orders[o].userID, data.orders[o].id, ids, now);
    }

    method CreateUserAPIKey(userID: string, packageID: string, ids: PaymentIDs, now: Time) returns (r: Result<APIKey>)
      modifies this
      ensures r.Success? <==> Entitled(old(data).subscriptions, userID, packageID, now)
      ensures r.Success? ==> r.value == NewKey(ids, userID, packageID, now)
      ensures data == AfterKeyCreated(old(data), userID, packageID, ids, now)
    {
      var entitled := HasActiveSubscription(data.subscriptions, userID, packageID, now);
      if !entitled {
        return Failure("active subscription required for package");
      }
      var key := NewKey(ids, userID, packageID, now);
      data := data.(apiKeys := data.apiKeys + [key]);
      return Success(key);
    }

    method RevokeUserAPIKey(userID: string, keyID: string) returns (r: Result<APIKey>)
      modifies this
      ensures data == AfterKeyRevoked(old(data), userID, keyID)
      ensures var k := FirstIndex(old(data).apiKeys, (k: APIKey) => k.id == keyID && k.userID == userID);
              && (r.Success? <==> k < |old(data).apiKeys|)
              && (r.Success? ==> k < |data.apiKeys| && r.value == data.apiKeys[k] && !r.value.active)
    {
      var k := FindFirst(data.apiKeys, (k: APIKey) => k.id == keyID && k.userID == userID);
      if k == |data.apiKeys| {
        return Failure("api key not found");
      }
      var key := data.apiKeys[k].(active := false);
      data := data.(apiKeys := data.apiKeys[k := key]);
      return Success(key);
    }
  }

  function AfterConfirm(data: PlatformData, userID: string, orderID: string, ids: PaymentIDs, now: Time): PlatformData {
    var o := OwnOrderIndex(data, userID, orderID);
    if o == |data.orders| || orderID == "" then data
    else
      var order := data.orders[o];
      if TrimSpace(order.paymentID) == "" || AlreadyPaid(data, order) || !Payable(data, order.paymentID) then data
      else AfterPayment(data, order.paymentID, "manual-confirmed", ids, now)
  }

  /** How a confirmation ends: with a report, or as the completion of the payment does. */
  function ConfirmResult(data: PlatformData, userID: string, orderID: string, ids: PaymentIDs,
                         now: Time): Result<CheckoutResult> {
    var o := OwnOrderIndex(data, userID, orderID);
    if o == |data.orders| || orderID == "" then Failure(NO_ORDER)
    else
      var order := data.orders[o];
      if TrimSpace(order.paymentID) == "" then Failure(NO_PAYMENT)
      else if AlreadyPaid(data, order)
          then ReportOf(data, order, data.payments[PaymentIndex(data.payments, order.paymentID)], userID)
      else CompletionResult(data, order.paymentID, "manual-confirmed", ids, now)
  }

  function AfterKeyCreated(data: PlatformData, userID: string, packageID: string, ids: PaymentIDs,
                           now: Time): PlatformData {
    if Entitled(data.subscriptions, userID, packageID, now)
    then data.(apiKeys := data.apiKeys + [NewKey(ids, userID, packageID, now)]) else data
  }

  function AfterKeyRevoked(data: PlatformData, userID: string, keyID: string): PlatformData {
    var k := FirstIndex(data.apiKeys, (k: APIKey) => k.id == keyID && k.userID == userID);
    if k < |data.apiKeys| then data.(apiKeys := data.apiKeys[k := data.apiKeys[k].(active := false)]) else data
  }

  // ---- what the operations change, row by row ----

  /** Where the lists agree except at one position. */
  ghost predicate OnlyAt<T>(a: seq<T>, b: seq<T>, k: nat) {
    |a| == |b| && k < |a| && forall j :: 0 <= j < |a| && j != k ==> b[j] == a[j]
  }

  /** The package that a checkout takes: the first active one of the id. */
  ghost predicate Offers(data: PlatformData, packageID: string, k: nat) {
    && k < |data.packages| && data.packages[k].id == packageID && data.packages[k].isActive
    && forall j :: 0 <= j < k ==> data.packages[j].id != packageID || !data.packages[j].isActive
  }

  /** The order is priced by the package: its price, and its cycle, or monthly where that is blank. */
  ghost predicate PricedBy(o: Order, pkg: ServicePackage) {
    && o.amountCents == pkg.priceCents && o.currency == "CNY"
    && (Yearly(o.billingCycle) <==> Yearly(pkg.billingCycle))
    && (Blank(pkg.billingCycle) ==> o.billingCycle == "monthly")
    && (!Blank(pkg.billingCycle) ==> o.billingCycle == TrimSpace(pkg.billingCycle))
  }

  predicate Yearly(cycle: string) {
    TrimSpace(cycle) == "yearly"
  }

  lemma OrderPriced(pkg: ServicePackage, userID: string, packageID: string, bindAPIKeyID: string, createAPIKey: bool,
                    autoRenew: bool, orderID: string, paymentID: string, now: Time)
    ensures var o := NewOrder(pkg, userID, packageID, bindAPIKeyID, createAPIKey, autoRenew, orderID, paymentID, now);
            PricedBy(o, pkg)
  {
    var _, _ := TrimmedPart(pkg.billingCycle);
    TrimTwice(pkg.billingCycle);
    assert TrimSpace("monthly") == "monthly" by { TrimSpaceFixed("monthly"); }
    hide TrimSpace, Blank;
  }

  /** A checkout appends one unpaid order and one unpaid payment that name each other, at the terms
      of the package, and changes nothing else. */
  lemma CheckoutEffect(data: PlatformData, userID: string, packageID: string, bindAPIKeyID: string,
                       createAPIKey: bool, autoRenew: bool, orderID: string, paymentID: string, now: Time)
                           returns (k: nat)
    requires CheckoutAllowed(data, userID, packageID, bindAPIKeyID)
    ensures Offers(data, packageID, k)
    ensures bindAPIKeyID != "" ==>
              exists i :: && 0 <= i < |data.apiKeys| && data.apiKeys[i].id == bindAPIKeyID
                          && data.apiKeys[i].userID == userID
    ensures var d := AfterCheckout(data, userID, packageID, bindAPIKeyID, createAPIKey, autoRenew, orderID, paymentID,
              now);
            && |d.orders| == |data.orders| + 1 && d.orders[..|data.orders|] == data.orders
            && |d.payments| == |data.payments| + 1 && d.payments[..|data.payments|] == data.payments
            && d == data.(orders := d.orders, payments := d.payments)
            && var o, p := d.orders[|data.orders|], d.payments[|data.payments|];
               && o.id == "order-" + orderID && p.id == "pay-" + paymentID
               && o.paymentID == p.id && p.orderID == o.id && o.subscriptionID == ""
               && o.userID == p.userID == userID && o.packageID == packageID
               && PricedBy(o, data.packages[k]) && p.amountCents == o.amountCents && p.currency == o.currency
               && !o.paid && !p.paid && o.completedAt == p.completedAt == None
               && o.createdAt == p.createdAt == now && p.provider == "mockpay" && p.providerRef == ""
               && o.bindAPIKeyID == bindAPIKeyID && o.createAPIKey == createAPIKey && o.autoRenew == autoRenew
  {
    k := FirstIndex(data.packages, (p: ServicePackage) => p.id == packageID && p.isActive);
    OrderPriced(data.packages[k], userID, packageID, bindAPIKeyID, createAPIKey, autoRenew, orderID, paymentID, now);
    hide TrimSpace, DefaultBillingCycle;
    if bindAPIKeyID != "" {
      var i := FirstIndex(data.apiKeys, (k: APIKey) => k.id == bindAPIKeyID && k.userID == userID);
      assert data.apiKeys[i].id == bindAPIKeyID;
    }
  }

  /** The length of a cycle: 365 days for yearly, 30 days for anything else. */
  lemma CycleLength(cycle: string)
    ensures BillingCycleDuration(cycle) ==
            if Yearly(cycle) then 31_536_000_000_000_000 else 2_592_000_000_000_000
  {
    hide TrimSpace;
  }

  /** One row of the user and package is extended from its expiry if that lies ahead, or from now;
      or, where there was none, one is added. */
  ghost predicate Prolongs(before: seq<Subscription>, after: seq<Subscription>, o: Order, id: string, now: Time,
                           k: nat) {
    var length := if Yearly(o.billingCycle) then 31_536_000_000_000_000 else 2_592_000_000_000_000;
    && k < |after|
    && after[k].userID == o.userID && after[k].packageID == o.packageID
    && after[k].active && after[k].orderID == o.id && after[k].autoRenew == o.autoRenew
    && if k < |before| then
         && OnlyAt(before, after, k) && after[k].id == before[k].id && after[k].startsAt == before[k].startsAt
         && after[k].expiresAt == (if before[k].expiresAt > now then before[k].expiresAt else now) + length
         && before[k].userID == o.userID && before[k].packageID == o.packageID
       else
         && k == |before| && |after| == k + 1 && after[..k] == before
         && after[k].id == "sub-" + id && after[k].startsAt == now && after[k].expiresAt == now + length
         && forall j :: 0 <= j < k ==> before[j].userID != o.userID || before[j].packageID != o.packageID
  }

  /** What an order does to the keys: the bound key serves its package from now on; or, without one
      to bind and if asked for, a fresh active key of the user is added. */
  ghost predicate Equips(before: seq<APIKey>, after: seq<APIKey>, o: Order, ids: PaymentIDs, now: Time) {
    if o.bindAPIKeyID != "" then
      || (after == before && forall k :: 0 <= k < |before| ==> before[k].id != o.bindAPIKeyID)
      || exists k: nat ::
           && OnlyAt(before, after, k) && before[k].id == o.bindAPIKeyID
           && after[k] == before[k].(packageID := o.packageID)
           && forall j :: 0 <= j < k ==> before[j].id != o.bindAPIKeyID
    else if o.createAPIKey then
      && |after| == |before| + 1 && after[..|before|] == before
      && after[|before|] == APIKey("key-" + ids.key, "usp_" + ids.secret, o.userID, o.packageID, true, now, 0)
    else after == before
  }

  lemma SubscribedProlongs(subs: seq<Subscription>, o: Order, id: string, now: Time)
    ensures var (after, sub) := Subscribed(subs, o, id, now);
            var k := SubIndex(subs, o.userID, o.packageID);
            Prolongs(subs, after, o, id, now, k) && sub == after[k]
  {
    CycleLength(o.billingCycle);
    hide BillingCycleDuration, TrimSpace;
  }

  lemma KeyedEquips(keys: seq<APIKey>, o: Order, ids: PaymentIDs, now: Time)
    ensures Equips(keys, Keyed(keys, o, ids, now), o, ids, now)
  {
    var k := FirstIndex(keys, (k: APIKey) => k.id == o.bindAPIKeyID);
    if o.bindAPIKeyID != "" && k < |keys| {
      assert OnlyAt(keys, Keyed(keys, o, ids, now), k);
    }
  }

  /** A completed payment marks the payment and its order paid now, records one event, prolongs the
      one subscription that the order then names, and equips the user with the key asked for;
      nothing else changes, and the records are reported as stored. */
  lemma PaymentEffect(data: PlatformData, paymentID: string, providerRef: string, ids: PaymentIDs, now: Time)
    returns (p: nat, o: nat, k: nat)
    requires Payable(data, paymentID)
    ensures p < |data.payments| && data.payments[p].id == paymentID
    ensures o < |data.orders| && data.orders[o].id == data.payments[p].orderID
    ensures var d := AfterPayment(data, paymentID, providerRef, ids, now);
            && OnlyAt(data.payments, d.payments, p) && OnlyAt(data.orders, d.orders, o)
            && d.payments[p] == data.payments[p].(paid := true, providerRef := TrimSpace(providerRef),
                                                  completedAt := Some(now))
            && Prolongs(data.subscriptions, d.subscriptions, data.orders[o], ids.subscription, now, k)
            && d.orders[o] == data.orders[o].(paid := true, completedAt := Some(now),
                                              subscriptionID := d.subscriptions[k].id)
            && |d.webhookEvents| == |data.webhookEvents| + 1 &&
               d.webhookEvents[..|data.webhookEvents|] == data.webhookEvents
            && d.webhookEvents[|data.webhookEvents|] ==
               WebhookEvent("wh-" + ids.event, data.payments[p].provider, paymentID, now)
            && Equips(data.apiKeys, d.apiKeys, data.orders[o], ids, now)
            && d == data.(payments := d.payments, orders := d.orders, webhookEvents := d.webhookEvents,
                          subscriptions := d.subscriptions, apiKeys := d.apiKeys)
            && var r := CompletionOf(data, paymentID, providerRef, ids, now);
               && r.order == d.orders[o] && r.payment == d.payments[p]
               && r.apiKey == if data.orders[o].bindAPIKeyID == "" && data.orders[o].createAPIKey
                  then Some(d.apiKeys[|data.apiKeys|]) else None
  {
    p := PaymentIndex(data.payments, paymentID);
    o := OrderIndex(data.orders, data.payments[p].orderID);
    k := SubIndex(data.subscriptions, data.orders[o].userID, data.orders[o].packageID);
    SubscribedProlongs(data.subscriptions, data.orders[o], ids.subscription, now);
    KeyedEquips(data.apiKeys, data.orders[o], ids, now);
    hide Subscribed, Prolongs, TrimSpace;
  }

  /** How a completion fails: for want of the payment, or else of its order. */
  lemma CompletionFails(data: PlatformData, paymentID: string, providerRef: string, ids: PaymentIDs, now: Time)
    ensures var r := CompletionResult(data, paymentID, providerRef, ids, now);
            && (r.Failure? <==> !Payable(data, paymentID))
            && (r == Failure("payment not found") <==>
                forall i :: 0 <= i < |data.payments| ==> data.payments[i].id != paymentID)
            && (r.Failure? ==> r.error == "payment not found" || r.error == "order not found")
            && (r.Success? ==> r.value == CompletionOf(data, paymentID, providerRef, ids, now))
  {
    hide AfterPayment, CompletionOf;
    assert "payment not found"[0] != "order not found"[0];
  }

  /** The report of a paid order names the last key of the user for its package where the order was
      to create one, and no key otherwise. */
  lemma ReportNames(data: PlatformData, order: Order, payment: Payment, userID: string)
    ensures var r := ReportOf(data, order, payment, userID);
            && (r.Failure? <==>
                order.createAPIKey &&
                (userID == "" || forall i :: 0 <= i < |data.users| ==> data.users[i].id != userID))
            && (r.Success? ==>
                 && r.value.order == order && r.value.payment == payment
                 && (!order.createAPIKey ==> r.value.apiKey == None)
                 && (order.createAPIKey ==> r.value.apiKey == LatestKey(data.apiKeys, userID, order.packageID)))
  {
    hide LatestKey;
  }

  // ---- the keys that users make and revoke ----

  /** A key that a user makes is accepted exactly while the user is entitled to the package. */
  lemma MadeKeyIsGood(data: PlatformData, userID: string, packageID: string, ids: PaymentIDs, now: Time, later: Time)
    requires Entitled(data.subscriptions, userID, packageID, now)
    requires forall j :: 0 <= j < |data.apiKeys| ==> data.apiKeys[j].key != "usp_" + ids.secret
    requires userID != "" && UserIndex(data, userID) < |data.users| && GoodStanding(data.users[UserIndex(data, userID)])
    requires PackageIndex(data, packageID) < |data.packages|
    ensures Accepts(AfterKeyCreated(data, userID, packageID, ids, now), "usp_" + ids.secret, later) <==>
            Entitled(data.subscriptions, userID, packageID, later)
  {
    hide Entitled, GoodStanding;
    var d, n := AfterKeyCreated(data, userID, packageID, ids, now), |data.apiKeys|;
    assert d.apiKeys[n].key == "usp_" + ids.secret && d.apiKeys[n].active;
    assert KeyIndex(d, "usp_" + ids.secret) == n;
  }

  /** A revoked key is accepted no more, unless another active key bears the same text; every other
      key is accepted as before. */
  lemma RevokedKeyIsDead(data: PlatformData, userID: string, k: nat, rawKey: string, later: Time)
    requires k < |data.apiKeys| && data.apiKeys[k].userID == userID
    requires forall j :: 0 <= j < k ==> data.apiKeys[j].id != data.apiKeys[k].id || data.apiKeys[j].userID != userID
    requires forall j :: 0 <= j < |data.apiKeys| && j != k && data.apiKeys[j].active ==>
               data.apiKeys[j].key != data.apiKeys[k].key
    ensures Accepts(AfterKeyRevoked(data, userID, data.apiKeys[k].id), rawKey, later) <==>
            rawKey != data.apiKeys[k].key && Accepts(data, rawKey, later)
  {
    hide Entitled, GoodStanding;
    var d := AfterKeyRevoked(data, userID, data.apiKeys[k].id);
    assert OnlyAt(data.apiKeys, d.apiKeys, k) && !d.apiKeys[k].active;
    var i, j := KeyIndex(data, rawKey), KeyIndex(d, rawKey);
    if rawKey == data.apiKeys[k].key {
      assert j == |d.apiKeys|;
    } else {
      assert i < |data.apiKeys| ==> d.apiKeys[i] == data.apiKeys[i];
      assert j < |d.apiKeys| ==> d.apiKeys[j] == data.apiKeys[j];
      assert i == j;
    }
  }

  /** The key that a report names is the last of the user's keys for the package. */
  lemma {:induction false} LatestKeyIs(keys: seq<APIKey>, userID: string, packageID: string)
    ensures forall k :: LatestKey(keys, userID, packageID) == Some(k) <==>
              exists i :: && 0 <= i < |keys| && keys[i] == k && k.userID == userID && k.packageID == packageID
                          && forall j :: i < j < |keys| ==> keys[j].userID != userID || keys[j].packageID != packageID
  {
    if keys != [] {
      var n := |keys| - 1;
      LatestKeyIs(keys[..n], userID, packageID);
      if !(keys[n].userID == userID && keys[n].packageID == packageID) {
        forall i | 0 <= i < n
          ensures keys[..n][i] == keys[i]
        {}
      }
    }
  }
}
