/** What every run of checkouts and payments keeps. */
module CommerceLedger {
  import opened Text
  import opened Search
  import opened Timestamps
  import opened Domain
  import opened Access
  import opened PaidTime
  import opened Commerce

  // ---- the invariant ----

  predicate Linked(o: Order, p: Payment) {
    && o.paymentID == p.id && p.orderID == o.id && p.userID == o.userID
    && p.amountCents == o.amountCents && p.currency == o.currency && o.paid == p.paid
  }

  /** Orders and payments are created in pairs; ids are not shared. */
  ghost predicate Books(orders: seq<Order>, payments: seq<Payment>) {
    && |orders| == |payments|
    && (forall i :: 0 <= i < |orders| ==> Linked(orders[i], payments[i]))
    && (forall i, j :: 0 <= i < j < |orders| ==> orders[i].id != orders[j].id)
    && (forall i, j :: 0 <= i < j < |payments| ==> payments[i].id != payments[j].id)
  }

  predicate For(s: Subscription, userID: string, packageID: string) {
    s.userID == userID && s.packageID == packageID
  }

  ghost predicate HasRow(subs: seq<Subscription>, userID: string, packageID: string) {
    exists j :: 0 <= j < |subs| && For(subs[j], userID, packageID)
  }

  /** At most one subscription per user and package. */
  ghost predicate OneEach(subs: seq<Subscription>) {
    && (forall i, j :: 0 <= i < j < |subs| ==> !For(subs[i], subs[j].userID, subs[j].packageID))
    && (forall i, j :: 0 <= i < j < |subs| ==> subs[i].id != subs[j].id)
  }

  ghost predicate PaidOrdersServed(orders: seq<Order>, subs: seq<Subscription>) {
    forall i :: 0 <= i < |orders| && orders[i].paid ==>
      exists k :: 0 <= k < |subs| && subs[k].id == orders[i].subscriptionID &&
          For(subs[k], orders[i].userID, orders[i].packageID)
  }

  /** The order a recorded event paid for. */
  function EventOrder(orders: seq<Order>, e: WebhookEvent): (i: nat)
    ensures i <= |orders|
  {
    FirstIndex(orders, (o: Order) => o.paymentID == e.paymentID)
  }

  /** Every recorded event is for a paid order. */
  ghost predicate EventsSound(events: seq<WebhookEvent>, orders: seq<Order>) {
    forall i :: 0 <= i < |events| ==>
        EventOrder(orders, events[i]) < |orders| && orders[EventOrder(orders, events[i])].paid
  }

  /** Events are recorded in the order of time, between the start of the run and `clock`. */
  ghost predicate InTime(opening: seq<Subscription>, start: Time, events: seq<WebhookEvent>, clock: Time) {
    && start <= clock
    && (forall k :: 0 <= k < |opening| ==> opening[k].startsAt <= opening[k].expiresAt && opening[k].startsAt <= start)
    && (forall i, j :: 0 <= i < j < |events| ==> events[i].receivedAt <= events[j].receivedAt)
    && (forall i :: 0 <= i < |events| ==> start <= events[i].receivedAt <= clock)
  }

  /** The time purchases that the recorded events made for one user and package. */
  function Purchases(events: seq<WebhookEvent>, orders: seq<Order>, userID: string, packageID: string): seq<Purchase> {
    if events == [] then []
    else
      var e := events[|events| - 1];
      var o := EventOrder(orders, e);
      Purchases(events[..|events| - 1], orders, userID, packageID) +
      if o < |orders| && orders[o].userID == userID && orders[o].packageID == packageID
      then [Purchase(e.receivedAt, BillingCycleDuration(orders[o].billingCycle))]
      else []
  }

  /** A subscription that existed before the run counts as one purchase of its whole span. */
  function Opening(opening: seq<Subscription>, userID: string, packageID: string): seq<Purchase> {
    var k := SubIndex(opening, userID, packageID);
    if k < |opening| then [Purchase(opening[k].startsAt, opening[k].expiresAt - opening[k].startsAt)] else []
  }

  function Account(opening: seq<Subscription>, data: PlatformData, userID: string, packageID: string): seq<Purchase> {
    Opening(opening, userID, packageID) + Purchases(data.webhookEvents, data.orders, userID, packageID)
  }

  /** Something was bought, or the row was active to begin with. */
  predicate InForce(opening: seq<Subscription>, userID: string, packageID: string, g: seq<Purchase>) {
    var k := SubIndex(opening, userID, packageID);
    |g| > |Opening(opening, userID, packageID)| || (k < |opening| && opening[k].active)
  }

  /** The row says exactly what the purchases amount to. */
  ghost predicate Reflects(opening: seq<Subscription>, s: Subscription, g: seq<Purchase>) {
    && g != [] && s.startsAt == g[0].at && s.expiresAt == Expiry(g)
    && (s.active <==> InForce(opening, s.userID, s.packageID, g))
  }

  ghost predicate Ledger(opening: seq<Subscription>, data: PlatformData) {
    && (forall k :: 0 <= k < |data.subscriptions| ==>
          Reflects(opening, data.subscriptions[k],
              Account(opening, data, data.subscriptions[k].userID, data.subscriptions[k].packageID)))
    && (forall k :: 0 <= k < |opening| ==> HasRow(data.subscriptions, opening[k].userID, opening[k].packageID))
  }

  ghost predicate Inv(opening: seq<Subscription>, start: Time, data: PlatformData, clock: Time) {
    && Books(data.orders, data.payments)
    && OneEach(data.subscriptions)
    && PaidOrdersServed(data.orders, data.subscriptions)
    && EventsSound(data.webhookEvents, data.orders)
    && InTime(opening, start, data.webhookEvents, clock)
    && Ledger(opening, data)
  }

  /** A store before any order: arbitrary subscriptions, one per user and package, whose spans have
      begun. */
  ghost predicate Initial(data: PlatformData, clock: Time) {
    && data.orders == [] && data.payments == [] && data.webhookEvents == []
    && OneEach(data.subscriptions)
    && (forall k :: 0 <= k < |data.subscriptions| ==>
          data.subscriptions[k].startsAt <= data.subscriptions[k].expiresAt && data.subscriptions[k].startsAt <= clock)
  }

  lemma SubIndexUnique(subs: seq<Subscription>, k: nat)
    requires OneEach(subs) && k < |subs|
    ensures SubIndex(subs, subs[k].userID, subs[k].packageID) == k
  {}

  lemma InitialInv(data: PlatformData, clock: Time)
    requires Initial(data, clock)
    ensures Inv(data.subscriptions, clock, data, clock)
  {
    var subs := data.subscriptions;
    forall k | 0 <= k < |subs|
      ensures Reflects(subs, subs[k], Account(subs, data, subs[k].userID, subs[k].packageID))
      ensures HasRow(subs, subs[k].userID, subs[k].packageID)
    {
      SubIndexUnique(subs, k);
      assert Account(subs, data, subs[k].userID, subs[k].packageID) ==
             [Purchase(subs[k].startsAt, subs[k].expiresAt - subs[k].startsAt)];
    }
  }

  // ---- purchases depend only on the terms of the orders ----

  /** Same orders as far as an event is concerned, perhaps followed by new ones. */
  ghost predicate SameTerms(orders: seq<Order>, orders': seq<Order>) {
    && |orders| <= |orders'|
    && forall i :: 0 <= i < |orders| ==>
         && orders'[i].paymentID == orders[i].paymentID && orders'[i].billingCycle == orders[i].billingCycle
         && orders'[i].userID == orders[i].userID && orders'[i].packageID == orders[i].packageID
  }

  lemma SameEventOrder(orders: seq<Order>, orders': seq<Order>, e: WebhookEvent)
    requires SameTerms(orders, orders') && EventOrder(orders, e) < |orders|
    ensures EventOrder(orders', e) == EventOrder(orders, e)
  {}

  lemma {:induction false} SamePurchases(events: seq<WebhookEvent>, orders: seq<Order>, orders': seq<Order>,
                                         userID: string, packageID: string)
    requires SameTerms(orders, orders')
    requires forall i :: 0 <= i < |events| ==> EventOrder(orders, events[i]) < |orders|
    ensures Purchases(events, orders', userID, packageID) == Purchases(events, orders, userID, packageID)
  {
    hide EventOrder, BillingCycleDuration;
    if events != [] {
      SamePurchases(events[..|events| - 1], orders, orders', userID, packageID);
      SameEventOrder(orders, orders', events[|events| - 1]);
    }
  }

  lemma {:induction false} PurchasesComeFromPaidOrders(events: seq<WebhookEvent>, orders: seq<Order>, userID: string,
                                                       packageID: string)
    requires EventsSound(events, orders)
    requires Purchases(events, orders, userID, packageID) != []
    ensures exists i ::
              && 0 <= i < |orders| && orders[i].paid
              && orders[i].userID == userID && orders[i].packageID == packageID
  {
    hide EventOrder, BillingCycleDuration;
    var n := |events| - 1;
    var o := EventOrder(orders, events[n]);
    if !(orders[o].userID == userID && orders[o].packageID == packageID) {
      PurchasesComeFromPaidOrders(events[..n], orders, userID, packageID);
    }
  }

  /** A user and package without a subscription row have bought nothing. */
  lemma NoRowNoPurchase(opening: seq<Subscription>, data: PlatformData, userID: string, packageID: string)
    requires PaidOrdersServed(data.orders, data.subscriptions) && EventsSound(data.webhookEvents, data.orders) &&
             Ledger(opening, data)
    requires SubIndex(data.subscriptions, userID, packageID) == |data.subscriptions|
    ensures Account(opening, data, userID, packageID) == []
  {
    hide EventOrder, Reflects;
    assert forall k :: 0 <= k < |data.subscriptions| ==> !For(data.subscriptions[k], userID, packageID);
    if Purchases(data.webhookEvents, data.orders, userID, packageID) != [] {
      PurchasesComeFromPaidOrders(data.webhookEvents, data.orders, userID, packageID);
    }
  }

  lemma EventsKept(events: seq<WebhookEvent>, orders: seq<Order>, orders': seq<Order>)
    requires EventsSound(events, orders) && SameTerms(orders, orders')
    requires forall i :: 0 <= i < |orders| && orders[i].paid ==> orders'[i].paid
    ensures EventsSound(events, orders')
  {
    hide EventOrder;
    forall i | 0 <= i < |events|
      ensures EventOrder(orders', events[i]) == EventOrder(orders, events[i])
    {
      SameEventOrder(orders, orders', events[i]);
    }
  }

  lemma AccountKept(opening: seq<Subscription>, data: PlatformData, d: PlatformData, userID: string, packageID: string)
    requires EventsSound(data.webhookEvents, data.orders) && SameTerms(data.orders, d.orders)
    requires d.webhookEvents == data.webhookEvents
    ensures Account(opening, d, userID, packageID) == Account(opening, data, userID, packageID)
  {
    hide EventOrder;
    SamePurchases(data.webhookEvents, data.orders, d.orders, userID, packageID);
  }

  // ---- checkout keeps the invariant ----

  lemma CheckoutKeeps(opening: seq<Subscription>, start: Time, data: PlatformData, clock: Time, order: Order,
                      payment: Payment, now: Time)
    requires Inv(opening, start, data, clock) && clock <= now
    requires Linked(order, payment) && !order.paid
    requires forall i :: 0 <= i < |data.orders| ==> data.orders[i].id != order.id && data.payments[i].id != payment.id
    ensures Inv(opening, start, data.(orders := data.orders + [order], payments := data.payments + [payment]), now)
  {
    hide EventOrder, Reflects, Account, OneEach, EventsSound, HasRow;
    var d := data.(orders := data.orders + [order], payments := data.payments + [payment]);
    EventsKept(data.webhookEvents, data.orders, d.orders);
    forall k | 0 <= k < |data.subscriptions|
      ensures Reflects(opening, data.subscriptions[k],
              Account(opening, d, data.subscriptions[k].userID, data.subscriptions[k].packageID))
    {
      AccountKept(opening, data, d, data.subscriptions[k].userID, data.subscriptions[k].packageID);
    }
  }

  // ---- payment keeps the invariant ----

  /** Where a payment's order stands: at the payment's own position. */
  lemma PaymentOrder(orders: seq<Order>, payments: seq<Payment>, paymentID: string)
    requires Books(orders, payments) && PaymentIndex(payments, paymentID) < |payments|
    ensures var p := PaymentIndex(payments, paymentID);
            OrderIndex(orders, payments[p].orderID) == p && orders[p].paymentID == paymentID
  {}

  lemma FirstOrderOf(orders: seq<Order>, payments: seq<Payment>, p: nat, e: WebhookEvent)
    requires Books(orders, payments) && p < |orders| && e.paymentID == payments[p].id
    ensures EventOrder(orders, e) == p
  {}

  /** A payment adds one purchase to the account of its user and package and none elsewhere. */
  lemma PaymentAccount(opening: seq<Subscription>, data: PlatformData, d: PlatformData, p: nat, e: WebhookEvent,
                       userID: string, packageID: string)
    requires Books(data.orders, data.payments) && EventsSound(data.webhookEvents, data.orders)
    requires p < |data.orders| && e.paymentID == data.payments[p].id
    requires SameTerms(data.orders, d.orders) && |d.orders| == |data.orders| &&
             d.webhookEvents == data.webhookEvents + [e]
    ensures Account(opening, d, userID, packageID) ==
            Account(opening, data, userID, packageID) +
            (if data.orders[p].userID == userID && data.orders[p].packageID == packageID
             then [Purchase(e.receivedAt, BillingCycleDuration(data.orders[p].billingCycle))] else [])
  {
    hide EventOrder, BillingCycleDuration;
    SamePurchases(data.webhookEvents, data.orders, d.orders, userID, packageID);
    FirstOrderOf(data.orders, data.payments, p, e);
    SameEventOrder(data.orders, d.orders, e);
    assert (data.webhookEvents + [e])[..|data.webhookEvents|] == data.webhookEvents;
  }

  lemma SubscribedKeepsOneEach(subs: seq<Subscription>, o: Order, id: string, now: Time)
    requires OneEach(subs) && forall k :: 0 <= k < |subs| ==> subs[k].id != "sub-" + id
    ensures var (subs', sub) := Subscribed(subs, o, id, now);
            && OneEach(subs')
            && |subs| <= |subs'|
            && (forall k :: 0 <= k < |subs| ==>
               subs'[k].id == subs[k].id && For(subs'[k], subs[k].userID, subs[k].packageID))
            && (exists k :: 0 <= k < |subs'| && subs'[k] == sub && For(sub, o.userID, o.packageID))
  {
    hide BillingCycleDuration;
    var (subs', sub) := Subscribed(subs, o, id, now);
    var k := SubIndex(subs, o.userID, o.packageID);
    assert subs'[k] == sub;
  }

  /** The row that carries the order now says what the enlarged account says. */
  lemma SubscribedReflects(opening: seq<Subscription>, subs: seq<Subscription>, o: Order, id: string, now: Time,
                           g: seq<Purchase>)
    requires |Opening(opening, o.userID, o.packageID)| <= |g|
    requires var k := SubIndex(subs, o.userID, o.packageID);
             if k < |subs| then Reflects(opening, subs[k], g) else g == []
    ensures Reflects(opening, Subscribed(subs, o, id, now).1, g + [Purchase(now, BillingCycleDuration(o.billingCycle))])
  {
    hide BillingCycleDuration;
    ExpiryAppend(g, Purchase(now, BillingCycleDuration(o.billingCycle)));
  }

  lemma BooksPaid(orders: seq<Order>, payments: seq<Payment>, p: nat, subID: string, providerRef: string, now: Time)
    requires Books(orders, payments) && p < |orders|
    ensures Books(orders[p := PaidOrder(orders[p], subID, now)],
            payments[p := PaidPayment(payments[p], providerRef, now)])
    ensures SameTerms(orders, orders[p := PaidOrder(orders[p], subID, now)])
  {
    hide TrimSpace;
  }

  lemma ServedPaid(orders: seq<Order>, subs: seq<Subscription>, p: nat, id: string, now: Time)
    requires PaidOrdersServed(orders, subs) && OneEach(subs) && p < |orders|
    requires forall k :: 0 <= k < |subs| ==> subs[k].id != "sub-" + id
    ensures var (subs', sub) := Subscribed(subs, orders[p], id, now);
            PaidOrdersServed(orders[p := PaidOrder(orders[p], sub.id, now)], subs')
  {
    SubscribedKeepsOneEach(subs, orders[p], id, now);
    var (subs', sub) := Subscribed(subs, orders[p], id, now);
    hide Subscribed, OneEach;
    var orders' := orders[p := PaidOrder(orders[p], sub.id, now)];
    forall i | 0 <= i < |orders'| && orders'[i].paid
      ensures exists k ::
                && 0 <= k < |subs'| && subs'[k].id == orders'[i].subscriptionID
                && For(subs'[k], orders'[i].userID, orders'[i].packageID)
    {
      if i != p {
        var k :| 0 <= k < |subs| && subs[k].id == orders[i].subscriptionID &&
            For(subs[k], orders[i].userID, orders[i].packageID);
        assert subs'[k].id == orders'[i].subscriptionID;
      }
    }
  }

  lemma AccountLength(opening: seq<Subscription>, data: PlatformData, userID: string, packageID: string)
    ensures |Opening(opening, userID, packageID)| <= |Account(opening, data, userID, packageID)|
  {
    hide Opening, Purchases;
  }

  /** The ledger after the rows of one user and package gained a purchase. */
  lemma LedgerPaid(opening: seq<Subscription>, data: PlatformData, d: PlatformData, p: nat, e: WebhookEvent, id: string)
    requires Books(data.orders, data.payments) && OneEach(data.subscriptions)
    requires PaidOrdersServed(data.orders, data.subscriptions) && EventsSound(data.webhookEvents, data.orders) &&
             Ledger(opening, data)
    requires p < |data.orders| && e.paymentID == data.payments[p].id
    requires forall k :: 0 <= k < |data.subscriptions| ==> data.subscriptions[k].id != "sub-" + id
    requires SameTerms(data.orders, d.orders) && |d.orders| == |data.orders| &&
             d.webhookEvents == data.webhookEvents + [e]
    requires d.subscriptions == Subscribed(data.subscriptions, data.orders[p], id, e.receivedAt).0
    ensures Ledger(opening, d)
  {
    hide EventOrder, BillingCycleDuration, Reflects, Account, Books, PaidOrdersServed, EventsSound;
    var subs, subs', o := data.subscriptions, d.subscriptions, data.orders[p];
    var k0 := SubIndex(subs, o.userID, o.packageID);
    forall k | 0 <= k < |subs'|
      ensures Reflects(opening, subs'[k], Account(opening, d, subs'[k].userID, subs'[k].packageID))
    {
      var g := Account(opening, data, subs'[k].userID, subs'[k].packageID);
      PaymentAccount(opening, data, d, p, e, subs'[k].userID, subs'[k].packageID);
      if k == k0 {
        if k0 == |subs| {
          NoRowNoPurchase(opening, data, o.userID, o.packageID);
        }
        AccountLength(opening, data, o.userID, o.packageID);
        SubscribedReflects(opening, subs, o, id, e.receivedAt, g);
      } else {
        assert For(subs[k], subs[k].userID, subs[k].packageID);
        assert !For(subs[k], o.userID, o.packageID);
        assert Account(opening, d, subs'[k].userID, subs'[k].packageID) == g;
      }
    }
    forall k | 0 <= k < |opening|
      ensures HasRow(subs', opening[k].userID, opening[k].packageID)
    {
      var j :| 0 <= j < |subs| && For(subs[j], opening[k].userID, opening[k].packageID);
      assert For(subs'[j], opening[k].userID, opening[k].packageID);
    }
  }

  lemma EventsPaid(events: seq<WebhookEvent>, orders: seq<Order>, orders': seq<Order>, payments': seq<Payment>, p: nat,
                   e: WebhookEvent)
    requires EventsSound(events, orders) && SameTerms(orders, orders')
    requires forall i :: 0 <= i < |orders| && orders[i].paid ==> orders'[i].paid
    requires Books(orders', payments') && p < |orders'| && e.paymentID == payments'[p].id && orders'[p].paid
    ensures EventsSound(events + [e], orders')
  {
    hide EventOrder, Books;
    EventsKept(events, orders, orders');
    FirstOrderOf(orders', payments', p, e);
  }

  lemma InTimeLater(opening: seq<Subscription>, start: Time, events: seq<WebhookEvent>, clock: Time, e: WebhookEvent)
    requires InTime(opening, start, events, clock) && clock <= e.receivedAt
    ensures InTime(opening, start, events + [e], e.receivedAt)
  {}

  lemma PaymentKeeps(opening: seq<Subscription>, start: Time, data: PlatformData, clock: Time,
                     paymentID: string, providerRef: string, ids: PaymentIDs, now: Time)
    requires Inv(opening, start, data, clock) && clock <= now
    requires Payable(data, paymentID)
    requires forall k :: 0 <= k < |data.subscriptions| ==> data.subscriptions[k].id != "sub-" + ids.subscription
    ensures Inv(opening, start, AfterPayment(data, paymentID, providerRef, ids, now), now)
  {
    var p := PaymentIndex(data.payments, paymentID);
    PaymentOrder(data.orders, data.payments, paymentID);
    var e := WebhookEvent("wh-" + ids.event, data.payments[p].provider, data.payments[p].id, now);
    var sub := Subscribed(data.subscriptions, data.orders[p], ids.subscription, now).1;
    var orders' := data.orders[p := PaidOrder(data.orders[p], sub.id, now)];
    var payments' := data.payments[p := PaidPayment(data.payments[p], providerRef, now)];
    BooksPaid(data.orders, data.payments, p, sub.id, providerRef, now);
    SubscribedKeepsOneEach(data.subscriptions, data.orders[p], ids.subscription, now);
    ServedPaid(data.orders, data.subscriptions, p, ids.subscription, now);
    assert payments'[p].id == data.payments[p].id;
    hide Subscribed, OneEach, Keyed, Ledger, PaidOrdersServed, PaidPayment, SameTerms, EventsSound, InTime, Books,
        PaymentIndex, OrderIndex;
    EventsPaid(data.webhookEvents, data.orders, orders', payments', p, e);
    InTimeLater(opening, start, data.webhookEvents, clock, e);
    LedgerPaid(opening, data, AfterPayment(data, paymentID, providerRef, ids, now), p, e, ids.subscription);
  }

  // ---- runs ----

  datatype CommerceStep =
    | CheckedOut(userID: string, packageID: string, bindAPIKeyID: string, createAPIKey: bool, autoRenew: bool,
                 orderID: string, paymentID: string)
    | PaymentCompleted(paymentID: string, providerRef: string, ids: PaymentIDs)
    | OrderConfirmed(userID: string, orderID: string, ids: PaymentIDs)
    | KeyCreated(userID: string, packageID: string, ids: PaymentIDs)
    | KeyRevoked(userID: string, keyID: string)

  datatype TimedStep = TimedStep(step: CommerceStep, at: Time)

  function AfterStep(data: PlatformData, s: CommerceStep, now: Time): PlatformData {
    match s
    case CheckedOut(userID, packageID, bindAPIKeyID, createAPIKey, autoRenew, orderID, paymentID) =>
      AfterCheckout(data, userID, packageID, bindAPIKeyID, createAPIKey, autoRenew, orderID, paymentID, now)
    case PaymentCompleted(paymentID, providerRef, ids) =>
      if Payable(data, paymentID) then AfterPayment(data, paymentID, providerRef, ids, now) else data
    case OrderConfirmed(userID, orderID, ids) => AfterConfirm(data, userID, orderID, ids, now)
    case KeyCreated(userID, packageID, ids) => AfterKeyCreated(data, userID, packageID, ids, now)
    case KeyRevoked(userID, keyID) => AfterKeyRevoked(data, userID, keyID)
  }

  /** The random identifiers drawn by the step are not in use. */
  ghost predicate FreshIDs(data: PlatformData, s: CommerceStep) {
    match s
    case CheckedOut(_, _, _, _, _, orderID, paymentID) =>
      && (forall i :: 0 <= i < |data.orders| ==> data.orders[i].id != "order-" + orderID)
      && (forall i :: 0 <= i < |data.payments| ==> data.payments[i].id != "pay-" + paymentID)
    case PaymentCompleted(_, _, ids) => forall k :: 0 <= k < |data.subscriptions| ==>
        data.subscriptions[k].id != "sub-" + ids.subscription
    case OrderConfirmed(_, _, ids) => forall k :: 0 <= k < |data.subscriptions| ==>
        data.subscriptions[k].id != "sub-" + ids.subscription
    case _ => true
  }

  function Run(data: PlatformData, steps: seq<TimedStep>): PlatformData {
    if steps == [] then data
    else
      var last := steps[|steps| - 1];
      AfterStep(Run(data, steps[..|steps| - 1]), last.step, last.at)
  }

  function ClockAfter(steps: seq<TimedStep>, clock: Time): Time {
    if steps == [] then clock else steps[|steps| - 1].at
  }

  /** The clock does not go backwards and identifiers are drawn afresh. */
  ghost predicate Admissible(data: PlatformData, steps: seq<TimedStep>, clock: Time) {
    steps == [] ||
    var init, last := steps[..|steps| - 1], steps[|steps| - 1];
    Admissible(data, init, clock) && ClockAfter(init, clock) <= last.at && FreshIDs(Run(data, init), last.step)
  }

  lemma KeysKeep(opening: seq<Subscription>, start: Time, data: PlatformData, clock: Time, keys: seq<APIKey>, now: Time)
    requires Inv(opening, start, data, clock) && clock <= now
    ensures Inv(opening, start, data.(apiKeys := keys), now)
  {
    hide Books, OneEach, PaidOrdersServed, EventsSound, Reflects, Account;
    forall k | 0 <= k < |data.subscriptions|
      ensures Account(opening, data.(apiKeys := keys), data.subscriptions[k].userID, data.subscriptions[k].packageID) ==
              Account(opening, data, data.subscriptions[k].userID, data.subscriptions[k].packageID)
    {
      SameAccount(opening, data, keys, data.subscriptions[k].userID, data.subscriptions[k].packageID);
    }
  }

  lemma SameAccount(opening: seq<Subscription>, data: PlatformData, keys: seq<APIKey>, userID: string,
                    packageID: string)
    ensures Account(opening, data.(apiKeys := keys), userID, packageID) == Account(opening, data, userID, packageID)
  {}

  lemma StepKeeps(opening: seq<Subscription>, start: Time, data: PlatformData, clock: Time, s: CommerceStep, now: Time)
    requires Inv(opening, start, data, clock) && clock <= now && FreshIDs(data, s)
    ensures Inv(opening, start, AfterStep(data, s, now), now)
  {
    hide Inv, AfterPayment, Entitled, TrimSpace, BillingCycleDuration;
    KeysKeep(opening, start, data, clock, data.apiKeys, now);
    assert data.(apiKeys := data.apiKeys) == data;
    match s {
      case CheckedOut(_, _, _, _, _, _, _) => CheckoutStepKeeps(opening, start, data, clock, s, now);
      case PaymentCompleted(paymentID, providerRef, ids) =>
        if Payable(data, paymentID) {
          PaymentKeeps(opening, start, data, clock, paymentID, providerRef, ids, now);
        }
      case OrderConfirmed(userID, orderID, ids) =>
        var o := OwnOrderIndex(data, userID, orderID);
        if o < |data.orders| && Payable(data, data.orders[o].paymentID) {
          PaymentKeeps(opening, start, data, clock, data.orders[o].paymentID, "manual-confirmed", ids, now);
        }
      case KeyCreated(_, _, _) => KeysKeep(opening, start, data, clock, AfterStep(data, s, now).apiKeys, now);
      case KeyRevoked(_, _) => KeysKeep(opening, start, data, clock, AfterStep(data, s, now).apiKeys, now);
    }
  }

  lemma CheckoutStepKeeps(opening: seq<Subscription>, start: Time, data: PlatformData, clock: Time, s: CommerceStep,
                          now: Time)
    requires Inv(opening, start, data, clock) && clock <= now && s.CheckedOut? && FreshIDs(data, s)
    ensures Inv(opening, start, AfterStep(data, s, now), now)
  {
    if CheckoutAllowed(data, s.userID, s.packageID, s.bindAPIKeyID) {
      assert |data.orders| == |data.payments|;
      hide Inv, DefaultBillingCycle;
      var d := AfterStep(data, s, now);
      CheckoutKeeps(opening, start, data, clock, d.orders[|data.orders|], d.payments[|data.payments|], now);
    } else {
      KeysKeep(opening, start, data, clock, data.apiKeys, now);
      assert data.(apiKeys := data.apiKeys) == data;
    }
  }

  /** Every reachable store satisfies the invariant. */
  lemma {:induction false} ReachableInv(data: PlatformData, steps: seq<TimedStep>, clock: Time)
    requires Initial(data, clock) && Admissible(data, steps, clock)
    ensures Inv(data.subscriptions, clock, Run(data, steps), ClockAfter(steps, clock))
  {
    hide Inv, Initial, AfterStep, FreshIDs;
    if steps == [] {
      InitialInv(data, clock);
    } else {
      var init, last := steps[..|steps| - 1], steps[|steps| - 1];
      ReachableInv(data, init, clock);
      StepKeeps(data.subscriptions, clock, Run(data, init), ClockAfter(init, clock), last.step, last.at);
    }
  }

  // ---- what the invariant means ----

  lemma {:induction false} PurchasesWellFormed(opening: seq<Subscription>, start: Time, events: seq<WebhookEvent>,
                                               clock: Time, orders: seq<Order>, userID: string, packageID: string)
    requires InTime(opening, start, events, clock)
    ensures var g := Purchases(events, orders, userID, packageID);
            WellFormed(g) && forall i :: 0 <= i < |g| ==>
                start <= g[i].at <= (if events == [] then clock else events[|events| - 1].receivedAt)
  {
    hide EventOrder, BillingCycleDuration;
    if events != [] {
      var n := |events| - 1;
      InTimePrefix(opening, start, events, clock);
      PurchasesWellFormed(opening, start, events[..n], clock, orders, userID, packageID);
      hide InTime, WellFormed;
      assert n > 0 ==> events[..n][n - 1] == events[n - 1];
      var g, o := Purchases(events[..n], orders, userID, packageID), EventOrder(orders, events[n]);
      if n == 0 {
        assert g == [];
      }
      if o < |orders| && orders[o].userID == userID && orders[o].packageID == packageID {
        WellFormedAppend(g, Purchase(events[n].receivedAt, BillingCycleDuration(orders[o].billingCycle)));
      }
    }
  }

  lemma WellFormedAppend(g: seq<Purchase>, p: Purchase)
    requires WellFormed(g) && p.cycle >= 0 && forall i :: 0 <= i < |g| ==> g[i].at <= p.at
    ensures WellFormed(g + [p])
  {}

  lemma InTimePrefix(opening: seq<Subscription>, start: Time, events: seq<WebhookEvent>, clock: Time)
    requires InTime(opening, start, events, clock) && events != []
    ensures var n := |events| - 1;
            && InTime(opening, start, events[..n], clock)
            && start <= events[n].receivedAt <= clock && (n > 0 ==> events[n - 1].receivedAt <= events[n].receivedAt)
  {}

  lemma AccountWellFormed(opening: seq<Subscription>, start: Time, data: PlatformData, clock: Time, userID: string,
                          packageID: string)
    requires InTime(opening, start, data.webhookEvents, clock)
    ensures var g := Account(opening, data, userID, packageID);
            WellFormed(g) && forall i :: 0 <= i < |g| ==> g[i].at <= clock
  {
    hide Purchases;
    PurchasesWellFormed(opening, start, data.webhookEvents, clock, data.orders, userID, packageID);
  }

  /** For each subscription and any later moment: the time that has run plus the time that
      remains is the opening span plus the cycles of the recorded events, and the user is
      entitled exactly in the paid intervals, once something was bought or if the row was active
      to begin with. */
  lemma PaidTimeConserved(opening: seq<Subscription>, start: Time, data: PlatformData, clock: Time, k: nat, now: Time)
    requires Inv(opening, start, data, clock) && k < |data.subscriptions| && clock <= now
    ensures var s := data.subscriptions[k];
            var g := Account(opening, data, s.userID, s.packageID);
            && WellFormed(g)
            && Used(g, now) + Max(0, s.expiresAt - now) == Total(g)
            && (s.active <==> InForce(opening, s.userID, s.packageID, g))
            && (Entitled(data.subscriptions, s.userID, s.packageID, now) <==> s.active && Covered(g, now))
            && (Entitled(data.subscriptions, s.userID, s.packageID, now) <==> s.active && now < s.expiresAt)
  {
    hide Account, Used, Covered, Total, Books, PaidOrdersServed, EventsSound, Expiry, InForce;
    var s := data.subscriptions[k];
    var g := Account(opening, data, s.userID, s.packageID);
    AccountWellFormed(opening, start, data, clock, s.userID, s.packageID);
    NothingLost(g, now);
    LiveIffCovered(g, now);
    assert s.active && now < s.expiresAt ==> Entitles(data.subscriptions[k], s.userID, s.packageID, now);
    forall j | 0 <= j < |data.subscriptions| && Entitles(data.subscriptions[j], s.userID, s.packageID, now)
      ensures j == k
    {
      assert For(data.subscriptions[j], s.userID, s.packageID);
    }
  }

  /** A key of a user and package in good standing validates exactly until the stored expiry of
      the active subscription. */
  lemma KeyValidUntilExpiry(opening: seq<Subscription>, start: Time, data: PlatformData, clock: Time, rawKey: string,
                            k: nat, now: Time)
    requires Inv(opening, start, data, clock) && k < |data.subscriptions| && clock <= now
    requires KeyIndex(data, rawKey) < |data.apiKeys|
    requires var key := data.apiKeys[KeyIndex(data, rawKey)];
             && For(data.subscriptions[k], key.userID, key.packageID) && key.userID != ""
             && UserIndex(data, key.userID) < |data.users| && GoodStanding(data.users[UserIndex(data, key.userID)])
             && PackageIndex(data, key.packageID) < |data.packages|
    ensures Accepts(data, rawKey, now) <==> data.subscriptions[k].active && now < data.subscriptions[k].expiresAt
  {
    hide Inv, Entitled, GoodStanding, Covered, Used, Total, Account;
    PaidTimeConserved(opening, start, data, clock, k, now);
  }

  /** Confirming an order that is paid changes nothing. */
  lemma ConfirmPaidOrder(opening: seq<Subscription>, start: Time, data: PlatformData, clock: Time,
                         userID: string, orderID: string, ids: PaymentIDs, now: Time)
    requires Inv(opening, start, data, clock)
    requires OwnOrderIndex(data, userID, orderID) < |data.orders| &&
             data.orders[OwnOrderIndex(data, userID, orderID)].paid
    ensures AfterConfirm(data, userID, orderID, ids, now) == data
  {
    hide AfterPayment, TrimSpace, OneEach, PaidOrdersServed, EventsSound, Ledger, InTime;
    var o := OwnOrderIndex(data, userID, orderID);
    assert Linked(data.orders[o], data.payments[o]);
    assert PaymentIndex(data.payments, data.orders[o].paymentID) == o;
  }

  // ---- what an order is for ----

  /** The order was made at the terms of a package on sale. */
  ghost predicate OrderedFrom(packages: seq<ServicePackage>, o: Order) {
    && (exists k: nat :: && k < |packages| && packages[k].id == o.packageID && packages[k].isActive
                         && (forall j :: 0 <= j < k ==> packages[j].id != o.packageID || !packages[j].isActive)
                         && PricedBy(o, packages[k]))
    && o.id != "" && !Blank(o.paymentID)
  }

  ghost predicate AllOrdered(packages: seq<ServicePackage>, orders: seq<Order>) {
    forall i :: 0 <= i < |orders| ==> OrderedFrom(packages, orders[i])
  }

  lemma PaymentKeepsTerms(data: PlatformData, paymentID: string, providerRef: string, ids: PaymentIDs, now: Time)
    requires Payable(data, paymentID) && AllOrdered(data.packages, data.orders)
    ensures var d := AfterPayment(data, paymentID, providerRef, ids, now);
            d.packages == data.packages && AllOrdered(d.packages, d.orders)
  {
    hide AfterPayment, PricedBy, Blank, Prolongs, Equips, OrderedFrom;
    var p, o, k := PaymentEffect(data, paymentID, providerRef, ids, now);
    var d := AfterPayment(data, paymentID, providerRef, ids, now);
    SameTermsOrdered(data.packages, data.orders[o], d.orders[o]);
  }

  lemma SameTermsOrdered(packages: seq<ServicePackage>, o: Order, o': Order)
    requires OrderedFrom(packages, o)
    requires o' == o.(paid := o'.paid, completedAt := o'.completedAt, subscriptionID := o'.subscriptionID)
    ensures OrderedFrom(packages, o')
  {
    hide Yearly, Blank, TrimSpace;
  }

  lemma CheckoutKeepsTerms(data: PlatformData, s: CommerceStep, now: Time)
    requires s.CheckedOut? && AllOrdered(data.packages, data.orders)
    ensures var d := AfterStep(data, s, now); d.packages == data.packages && AllOrdered(d.packages, d.orders)
  {
    hide PricedBy, AfterCheckout;
    if CheckoutAllowed(data, s.userID, s.packageID, s.bindAPIKeyID) {
      var k := CheckoutEffect(data, s.userID, s.packageID, s.bindAPIKeyID, s.createAPIKey, s.autoRenew, s.orderID,
          s.paymentID, now);
      var d := AfterStep(data, s, now);
      var o := d.orders[|data.orders|];
      assert o.paymentID[0] == 'p' && o.paymentID[0] in o.paymentID;
      assert OrderedFrom(data.packages, o);
      forall i | 0 <= i < |data.orders|
        ensures d.orders[i] == data.orders[i]
      {
        assert d.orders[..|data.orders|][i] == data.orders[i];
      }
    } else {
      RefusedCheckout(data, s, now);
    }
  }

  lemma RefusedCheckout(data: PlatformData, s: CommerceStep, now: Time)
    requires s.CheckedOut? && !CheckoutAllowed(data, s.userID, s.packageID, s.bindAPIKeyID)
    ensures AfterStep(data, s, now) == data
  {
    hide CheckoutAllowed;
  }

  /** In every reachable store each order has the price and the cycle of a package on sale, and the
      packages are as they were. */
  lemma {:induction false} RunKeepsTerms(data: PlatformData, steps: seq<TimedStep>)
    requires AllOrdered(data.packages, data.orders)
    ensures var d := Run(data, steps); d.packages == data.packages && AllOrdered(d.packages, d.orders)
  {
    hide AllOrdered, AfterStep;
    if steps != [] {
      RunKeepsTerms(data, steps[..|steps| - 1]);
      StepKeepsTerms(Run(data, steps[..|steps| - 1]), steps[|steps| - 1].step, steps[|steps| - 1].at);
    }
  }

  lemma StepKeepsTerms(data: PlatformData, s: CommerceStep, now: Time)
    requires AllOrdered(data.packages, data.orders)
    ensures var d := AfterStep(data, s, now); d.packages == data.packages && AllOrdered(d.packages, d.orders)
  {
    hide AllOrdered, AfterPayment, AfterCheckout, Entitled, TrimSpace, Payable;
    match s
    case CheckedOut(_, _, _, _, _, _, _) => CheckoutKeepsTerms(data, s, now);
    case PaymentCompleted(paymentID, providerRef, ids) =>
      if Payable(data, paymentID) {
        PaymentKeepsTerms(data, paymentID, providerRef, ids, now);
      }
    case OrderConfirmed(userID, orderID, ids) =>
      var o := OwnOrderIndex(data, userID, orderID);
      if o < |data.orders| && Payable(data, data.orders[o].paymentID) {
        PaymentKeepsTerms(data, data.orders[o].paymentID, "manual-confirmed", ids, now);
      }
    case _ =>
  }

  /** Confirming an order that is not paid completes its payment. */
  lemma ConfirmUnpaidOrder(opening: seq<Subscription>, start: Time, data: PlatformData, clock: Time,
                           userID: string, orderID: string, ids: PaymentIDs, now: Time)
    requires Inv(opening, start, data, clock) && AllOrdered(data.packages, data.orders)
    requires OwnOrderIndex(data, userID, orderID) < |data.orders| &&
             !data.orders[OwnOrderIndex(data, userID, orderID)].paid
    ensures var paymentID := data.orders[OwnOrderIndex(data, userID, orderID)].paymentID;
            && Payable(data, paymentID)
            && AfterConfirm(data, userID, orderID, ids, now) ==
               AfterPayment(data, paymentID, "manual-confirmed", ids, now)
            && ConfirmResult(data, userID, orderID, ids, now) ==
               CompletionResult(data, paymentID, "manual-confirmed", ids, now)
  {
    hide AfterPayment, CompletionOf, OneEach, PaidOrdersServed, EventsSound, Ledger, InTime, PricedBy;
    var o := OwnOrderIndex(data, userID, orderID);
    assert OrderedFrom(data.packages, data.orders[o]);
    var _, _ := TrimmedPart(data.orders[o].paymentID);
    hide TrimSpace, Blank;
    assert Linked(data.orders[o], data.payments[o]);
    assert PaymentIndex(data.payments, data.orders[o].paymentID) == o;
    PaymentOrder(data.orders, data.payments, data.orders[o].paymentID);
  }

  // ---- days ----

  /** How many of the recorded events paid for an order of the user and package whose cycle is
      yearly, or is not. */
  function EventsOn(events: seq<WebhookEvent>, orders: seq<Order>, userID: string, packageID: string,
                    yearly: bool): nat {
    if events == [] then 0
    else
      var o := EventOrder(orders, events[|events| - 1]);
      EventsOn(events[..|events| - 1], orders, userID, packageID, yearly) +
      if o < |orders| && orders[o].userID == userID && orders[o].packageID == packageID &&
         (TrimSpace(orders[o].billingCycle) == "yearly") == yearly
      then 1 else 0
  }

  lemma {:induction false} PurchasedDays(events: seq<WebhookEvent>, orders: seq<Order>, userID: string,
                                         packageID: string)
    ensures Total(Purchases(events, orders, userID, packageID)) ==
            EventsOn(events, orders, userID, packageID, true) * 365 * 86_400_000_000_000
            + EventsOn(events, orders, userID, packageID, false) * 30 * 86_400_000_000_000
  {
    hide EventOrder, TrimSpace;
    if events != [] {
      var n := |events| - 1;
      PurchasedDays(events[..n], orders, userID, packageID);
      var o := EventOrder(orders, events[n]);
      var g := Purchases(events[..n], orders, userID, packageID);
      if o < |orders| && orders[o].userID == userID && orders[o].packageID == packageID {
        CycleLength(orders[o].billingCycle);
        TotalAppend(g, Purchase(events[n].receivedAt, BillingCycleDuration(orders[o].billingCycle)));
      } else {
        assert g + [] == g;
      }
    }
  }

  /** What a subscription was when the run began. */
  function OpeningSpan(opening: seq<Subscription>, userID: string, packageID: string): int {
    if opening == [] then 0
    else if opening[0].userID == userID && opening[0].packageID == packageID
        then opening[0].expiresAt - opening[0].startsAt
    else OpeningSpan(opening[1..], userID, packageID)
  }

  lemma {:induction false} OpeningTotal(opening: seq<Subscription>, userID: string, packageID: string)
    ensures Total(Opening(opening, userID, packageID)) == OpeningSpan(opening, userID, packageID)
  {
    if opening != [] {
      OpeningTotal(opening[1..], userID, packageID);
      var k := SubIndex(opening, userID, packageID);
      TotalOfOne(opening[if k < |opening| then k else 0]);
    }
  }

  lemma TotalOfOne(s: Subscription)
    ensures Total([Purchase(s.startsAt, s.expiresAt - s.startsAt)]) == s.expiresAt - s.startsAt
  {
    assert [Purchase(s.startsAt, s.expiresAt - s.startsAt)][..0] == [];
  }

  lemma {:induction false} TotalJoin(g: seq<Purchase>, h: seq<Purchase>)
    ensures Total(g + h) == Total(g) + Total(h)
    decreases |h|
  {
    if h == [] {
      assert g + h == g;
    } else {
      var n := |h| - 1;
      TotalJoin(g, h[..n]);
      assert g + h == g + h[..n] + [h[n]];
      TotalAppend(g + h[..n], h[n]);
    }
  }

  /** In every reachable store and at every later moment: the time that a subscription has covered
      plus the time that remains is the span it began with, 365 days for each recorded event on a
      yearly order, and 30 days for each one on any other order. */
  lemma PaidDays(data: PlatformData, steps: seq<TimedStep>, clock: Time, k: nat, now: Time)
    requires Initial(data, clock) && Admissible(data, steps, clock)
    requires k < |Run(data, steps).subscriptions| && ClockAfter(steps, clock) <= now
    ensures var d := Run(data, steps);
            var s := d.subscriptions[k];
            Used(Account(data.subscriptions, d, s.userID, s.packageID), now) + Max(0, s.expiresAt - now) ==
            OpeningSpan(data.subscriptions, s.userID, s.packageID)
            + EventsOn(d.webhookEvents, d.orders, s.userID, s.packageID, true) * 365 * 86_400_000_000_000
            + EventsOn(d.webhookEvents, d.orders, s.userID, s.packageID, false) * 30 * 86_400_000_000_000
  {
    hide Initial, Admissible, Run, Inv, Used, Total, Opening, Purchases, EventsOn, OpeningSpan;
    var d, opening := Run(data, steps), data.subscriptions;
    ReachableInv(data, steps, clock);
    PaidTimeConserved(opening, clock, d, ClockAfter(steps, clock), k, now);
    var s := d.subscriptions[k];
    TotalJoin(Opening(opening, s.userID, s.packageID), Purchases(d.webhookEvents, d.orders, s.userID, s.packageID));
    OpeningTotal(opening, s.userID, s.packageID);
    PurchasedDays(d.webhookEvents, d.orders, s.userID, s.packageID);
  }

  // ---- does each payment buy its cycle once? ----

  function EventsFor(events: seq<WebhookEvent>, paymentID: string): nat {
    if events == [] then 0
    else EventsFor(events[..|events| - 1], paymentID) + (if events[|events| - 1].paymentID == paymentID then 1 else 0)
  }

  /** Each payment has been applied once if it is paid and never otherwise. */
  ghost predicate OncePerPayment(data: PlatformData) {
    forall i :: 0 <= i < |data.payments| ==>
      EventsFor(data.webhookEvents, data.payments[i].id) == if data.payments[i].paid then 1 else 0
  }

  /** A completion aimed at a payment that is already paid. */
  predicate Replays(data: PlatformData, s: CommerceStep) {
    s.PaymentCompleted? && Payable(data, s.paymentID) && data.payments[PaymentIndex(data.payments, s.paymentID)].paid
  }

  lemma PaymentOnceIff(data: PlatformData, paymentID: string, providerRef: string, ids: PaymentIDs, now: Time)
    requires Books(data.orders, data.payments) && OncePerPayment(data) && Payable(data, paymentID)
    ensures OncePerPayment(AfterPayment(data, paymentID, providerRef, ids, now)) <==>
            !data.payments[PaymentIndex(data.payments, paymentID)].paid
  {
    hide Subscribed, Keyed, TrimSpace;
    var d := AfterPayment(data, paymentID, providerRef, ids, now);
    var p := PaymentIndex(data.payments, paymentID);
    assert d.webhookEvents[..|data.webhookEvents|] == data.webhookEvents;
    assert EventsFor(d.webhookEvents, d.payments[p].id) == EventsFor(data.webhookEvents, data.payments[p].id) + 1;
    forall i | 0 <= i < |data.payments| && i != p
      ensures EventsFor(d.webhookEvents, d.payments[i].id) == EventsFor(data.webhookEvents, data.payments[i].id)
    {
    }
  }

  lemma {:induction false} NoEventsYet(events: seq<WebhookEvent>, orders: seq<Order>, paymentID: string)
    requires EventsSound(events, orders) && forall i :: 0 <= i < |orders| ==> orders[i].paymentID != paymentID
    ensures EventsFor(events, paymentID) == 0
  {
    if events != [] {
      NoEventsYet(events[..|events| - 1], orders, paymentID);
    }
  }

  lemma CheckoutOnce(data: PlatformData, s: CommerceStep, now: Time)
    requires Books(data.orders, data.payments) && EventsSound(data.webhookEvents, data.orders)
    requires s.CheckedOut? && FreshIDs(data, s) && OncePerPayment(data)
    ensures OncePerPayment(AfterStep(data, s, now))
  {
    hide EventsSound, CheckoutAllowed, DefaultBillingCycle, EventsFor;
    assert forall i :: 0 <= i < |data.orders| ==> Linked(data.orders[i], data.payments[i]);
    NoEventsYet(data.webhookEvents, data.orders, "pay-" + s.paymentID);
  }

  lemma SameHistory(data: PlatformData, d: PlatformData)
    requires d.payments == data.payments && d.webhookEvents == data.webhookEvents
    ensures OncePerPayment(d) <==> OncePerPayment(data)
  {}

  /** One purchase per payment is kept by a step exactly when the step does not complete a
      paid payment again; only the confirming operations check for that. */
  lemma OncePerPaymentIff(opening: seq<Subscription>, start: Time, data: PlatformData, clock: Time, s: CommerceStep,
                          now: Time)
    requires Inv(opening, start, data, clock) && FreshIDs(data, s) && OncePerPayment(data)
    ensures OncePerPayment(AfterStep(data, s, now)) <==> !Replays(data, s)
  {
    hide AfterPayment, AfterCheckout, Entitled, TrimSpace, OncePerPayment, Books, EventsSound, Ledger, OneEach,
        PaidOrdersServed, InTime;
    match s {
      case CheckedOut(_, _, _, _, _, _, _) => CheckoutOnce(data, s, now);
      case PaymentCompleted(paymentID, providerRef, ids) =>
        if Payable(data, paymentID) {
          PaymentOnceIff(data, paymentID, providerRef, ids, now);
        }
      case OrderConfirmed(userID, orderID, ids) =>
        var o := OwnOrderIndex(data, userID, orderID);
        if o < |data.orders| && Payable(data, data.orders[o].paymentID) {
          PaymentOnceIff(data, data.orders[o].paymentID, "manual-confirmed", ids, now);
        }
      case _ => SameHistory(data, AfterStep(data, s, now));
    }
  }

  // ---- and over whole runs? ----

  /** Some payment has been applied more than once. */
  ghost predicate Overpaid(data: PlatformData) {
    exists i :: 0 <= i < |data.payments| && EventsFor(data.webhookEvents, data.payments[i].id) >= 2
  }

  lemma {:induction false} EventsGrow(events: seq<WebhookEvent>, more: seq<WebhookEvent>, paymentID: string)
    ensures EventsFor(events + more, paymentID) >= EventsFor(events, paymentID)
    decreases |more|
  {
    if more == [] {
      assert events + more == events;
    } else {
      var n := |more| - 1;
      EventsGrow(events, more[..n], paymentID);
      assert (events + more)[..|events + more| - 1] == events + more[..n];
    }
  }

  /** Every operation keeps the payments where they are and only adds events. */
  lemma HistoryGrows(data: PlatformData, s: CommerceStep, now: Time)
    ensures var d := AfterStep(data, s, now);
            && data.webhookEvents <= d.webhookEvents && |data.payments| <= |d.payments|
            && forall i :: 0 <= i < |data.payments| ==> d.payments[i].id == data.payments[i].id
  {
    hide Subscribed, Keyed, TrimSpace, Entitled, CheckoutAllowed, NewOrder, NewPayment;
  }

  /** What was paid twice stays paid twice. */
  lemma OverpaidStays(data: PlatformData, s: CommerceStep, now: Time)
    requires Overpaid(data)
    ensures Overpaid(AfterStep(data, s, now))
  {
    HistoryGrows(data, s, now);
    hide AfterStep, EventsFor;
    var d := AfterStep(data, s, now);
    var i :| 0 <= i < |data.payments| && EventsFor(data.webhookEvents, data.payments[i].id) >= 2;
    var more := d.webhookEvents[|data.webhookEvents|..];
    assert data.webhookEvents + more == d.webhookEvents;
    EventsGrow(data.webhookEvents, more, data.payments[i].id);
    assert EventsFor(d.webhookEvents, d.payments[i].id) >= 2;
  }

  lemma ReplayOverpays(data: PlatformData, s: CommerceStep, now: Time)
    requires OncePerPayment(data) && Replays(data, s)
    ensures Overpaid(AfterStep(data, s, now))
  {
    hide Subscribed, Keyed, TrimSpace;
    var d := AfterStep(data, s, now);
    var p := PaymentIndex(data.payments, s.paymentID);
    assert d.webhookEvents[..|data.webhookEvents|] == data.webhookEvents;
    assert EventsFor(d.webhookEvents, d.payments[p].id) == EventsFor(data.webhookEvents, data.payments[p].id) + 1;
  }

  /** Some step of the run completed a payment that was already paid. */
  ghost predicate ReplayMet(data: PlatformData, steps: seq<TimedStep>) {
    exists n :: 0 <= n < |steps| && Replays(Run(data, steps[..n]), steps[n].step)
  }

  lemma ReplayMetStep(data: PlatformData, steps: seq<TimedStep>)
    requires steps != []
    ensures var m := |steps| - 1;
            ReplayMet(data, steps) <==> ReplayMet(data, steps[..m]) || Replays(Run(data, steps[..m]), steps[m].step)
  {
    hide Run, Replays;
    var m := |steps| - 1;
    var init := steps[..m];
    forall n | 0 <= n < m
      ensures init[..n] == steps[..n] && init[n] == steps[n]
    {}
    if n :| 0 <= n < |init| && Replays(Run(data, init[..n]), init[n].step) {
      assert Replays(Run(data, steps[..n]), steps[n].step);
    }
    if n :| 0 <= n < |steps| && Replays(Run(data, steps[..n]), steps[n].step) {
      assert n < m ==> Replays(Run(data, init[..n]), init[n].step);
    }
  }

  lemma {:induction false} RunOnceOrOverpaid(data: PlatformData, steps: seq<TimedStep>, clock: Time)
    requires Initial(data, clock) && Admissible(data, steps, clock)
    ensures if ReplayMet(data, steps) then Overpaid(Run(data, steps)) else OncePerPayment(Run(data, steps))
  {
    hide Initial, AfterStep, Replays, ReplayMet, Overpaid, OncePerPayment, FreshIDs;
    if steps == [] {
      StartsOnce(data, clock);
    } else {
      var m := |steps| - 1;
      var init, last := steps[..m], steps[m];
      RunOnceOrOverpaid(data, init, clock);
      ReplayMetStep(data, steps);
      if ReplayMet(data, init) {
        OverpaidStays(Run(data, init), last.step, last.at);
      } else {
        ReachableInv(data, init, clock);
        OncePerPaymentIff(data.subscriptions, clock, Run(data, init), ClockAfter(init, clock), last.step, last.at);
        if Replays(Run(data, init), last.step) {
          ReplayOverpays(Run(data, init), last.step, last.at);
        }
      }
    }
  }

  lemma StartsOnce(data: PlatformData, clock: Time)
    requires Initial(data, clock)
    ensures !ReplayMet(data, []) && OncePerPayment(Run(data, []))
  {}

  /** Over every run from a store without orders, each payment bought its cycle once if paid and
      never otherwise exactly when no step completed a payment that was already paid. */
  lemma RunOnceIff(data: PlatformData, steps: seq<TimedStep>, clock: Time)
    requires Initial(data, clock) && Admissible(data, steps, clock)
    ensures OncePerPayment(Run(data, steps)) <==> !ReplayMet(data, steps)
  {
    RunOnceOrOverpaid(data, steps, clock);
    hide Run, ReplayMet, EventsFor, Initial, Admissible;
  }

  // ---- a run that pays once and buys twice ----

  const SHOP := PlatformData([], [], [ServicePackage("p", 100, "monthly", true, [], false)], [], [], [], [], [], [], [])
  const FIRST := PaymentIDs("1", "1", "1", "1")
  const AGAIN := PaymentIDs("2", "2", "2", "2")

  /** Checkout, payment, and the same payment completed again, all at time 0. */
  const TWICE := [
    TimedStep(CheckedOut("u", "p", "", false, false, "1", "1"), 0),
    TimedStep(PaymentCompleted("pay-1", "", FIRST), 0),
    TimedStep(PaymentCompleted("pay-1", "", AGAIN), 0)]

  /** The store after the checkout, and after the first completion. */
  const MONTHLY := NewOrder(SHOP.packages[0], "u", "p", "", false, false, "1", "1", 0)
  const CARTED := SHOP.(orders := [MONTHLY], payments := [NewPayment(MONTHLY, 0)])

  function Bought(): PlatformData
    requires Payable(CARTED, "pay-1")
  {
    AfterPayment(CARTED, "pay-1", "", FIRST, 0)
  }

  lemma MonthlyTerms()
    ensures MONTHLY.id == "order-1" && MONTHLY.paymentID == "pay-1" && !MONTHLY.paid
    ensures BillingCycleDuration(MONTHLY.billingCycle) == 30 * DAY_NANOS
  {
    assert TrimSpace("monthly") == "monthly" by { TrimSpaceFixed("monthly"); }
    hide TrimSpace;
  }

  lemma CartedIs()
    ensures AfterStep(SHOP, TWICE[0].step, 0) == CARTED
    ensures Payable(CARTED, "pay-1") && PaymentIndex(CARTED.payments, "pay-1") == 0 &&
            OrderIndex(CARTED.orders, "order-1") == 0
  {
    MonthlyTerms();
    hide BillingCycleDuration, DefaultBillingCycle;
    assert SHOP.packages[0].id == "p" && SHOP.packages[0].isActive;
    assert CheckoutAllowed(SHOP, "u", "p", "");
    assert CARTED.payments[0].id == "pay-1" && CARTED.payments[0].orderID == "order-1" &&
           CARTED.orders[0].id == "order-1";
  }

  lemma BoughtIs()
    requires Payable(CARTED, "pay-1")
    ensures var d := Bought();
            && |d.orders| == |d.payments| == |d.subscriptions| == |d.webhookEvents| == 1
            && d.orders[0].id == "order-1" && d.orders[0].userID == "u" && d.orders[0].packageID == "p"
            && d.orders[0].billingCycle == MONTHLY.billingCycle && d.orders[0].bindAPIKeyID == "" &&
               !d.orders[0].createAPIKey
            && d.payments[0].id == "pay-1" && d.payments[0].orderID == "order-1" && d.payments[0].paid
            && d.subscriptions[0].id == "sub-1" && For(d.subscriptions[0], "u", "p") &&
               d.subscriptions[0].expiresAt == 30 * DAY_NANOS
  {
    MonthlyTerms();
    CartedIs();
    hide BillingCycleDuration, DefaultBillingCycle, TrimSpace, Keyed;
    assert SubIndex(CARTED.subscriptions, "u", "p") == 0;
  }

  lemma BoughtAgain()
    requires Payable(CARTED, "pay-1")
    ensures Payable(Bought(), "pay-1") && PaymentIndex(Bought().payments, "pay-1") == 0
    ensures var d := AfterPayment(Bought(), "pay-1", "", AGAIN, 0);
            |d.payments| == 1 && |d.subscriptions| == 1 && d.subscriptions[0].expiresAt == 60 * DAY_NANOS
  {
    MonthlyTerms();
    BoughtIs();
    var b := Bought();
    hide BillingCycleDuration, TrimSpace, Keyed, Bought;
    assert b.payments[0].id == "pay-1" && b.orders[0].id == "order-1";
    assert PaymentIndex(b.payments, "pay-1") == 0 && OrderIndex(b.orders, "order-1") == 0;
    assert For(b.subscriptions[0], "u", "p");
    assert SubIndex(b.subscriptions, "u", "p") == 0;
  }

  /** The states of the run, step by step. */
  lemma TwiceStates()
    requires Payable(CARTED, "pay-1") && Payable(Bought(), "pay-1")
    ensures Run(SHOP, TWICE[..0]) == SHOP && Run(SHOP, TWICE[..1]) == CARTED && Run(SHOP, TWICE[..2]) == Bought()
    ensures Run(SHOP, TWICE) == AfterPayment(Bought(), "pay-1", "", AGAIN, 0)
  {
    CartedIs();
    hide AfterPayment, AfterCheckout, Payable;
    var one, two := TWICE[..1], TWICE[..2];
    assert one[..0] == [] && two[..1] == one && TWICE[..|TWICE| - 1] == two;
  }

  lemma TwiceAdmissible()
    requires Payable(CARTED, "pay-1")
    requires Run(SHOP, TWICE[..0]) == SHOP && Run(SHOP, TWICE[..1]) == CARTED && Run(SHOP, TWICE[..2]) == Bought()
    ensures Admissible(SHOP, TWICE, 0)
  {
    BoughtIs();
    hide Run, Bought, AfterPayment;
    var one, two := TWICE[..1], TWICE[..2];
    assert one[..0] == TWICE[..0] == [] && two[..1] == one && TWICE[..|TWICE| - 1] == two;
    assert FreshIDs(SHOP, TWICE[0].step) && FreshIDs(CARTED, TWICE[1].step);
    assert Bought().subscriptions[0].id == "sub-1";
    assert "sub-1"[4] != ("sub-" + AGAIN.subscription)[4];
    assert FreshIDs(Bought(), TWICE[2].step);
    assert Admissible(SHOP, one, 0);
    assert Admissible(SHOP, two, 0);
  }

  /** The failing side is real: one payment of one monthly order, sixty days. */
  lemma PaidOnceBoughtTwice()
    ensures Initial(SHOP, 0) && Admissible(SHOP, TWICE, 0)
    ensures Replays(Run(SHOP, TWICE[..2]), TWICE[2].step)
    ensures var d := Run(SHOP, TWICE);
            && |d.payments| == 1 && |d.subscriptions| == 1 && d.subscriptions[0].expiresAt == 60 * DAY_NANOS
            && !OncePerPayment(d)
  {
    CartedIs();
    BoughtIs();
    BoughtAgain();
    TwiceStates();
    TwiceAdmissible();
    hide AfterPayment, Payable, OncePerPayment, Run, Admissible, Bought, TrimSpace, BillingCycleDuration, For;
    assert ReplayMet(SHOP, TWICE);
    RunOnceIff(SHOP, TWICE, 0);
  }
}
