/** The control plane's records. Times are nanoseconds since the Unix epoch. */
module Domain {
  import opened Wrappers
  import opened Timestamps

  datatype AccountStatus = Active | Disabled | Invalid | OtherStatus(text: string)

  /** The error classes that usage logs carry. */
  datatype ErrorType =
    | NoError
    | AuthFailed
    | QuotaExceeded
    | ModelUnavailable
    | InvalidRequest
    | UpstreamUnavailable
    | ProviderError
    | UpstreamError
    | OtherError(text: string)

  datatype MetaKey =
    | AccessToken
    | RefreshToken
    | ExpiresAt
    | LastRefreshAt
    | LastRefreshError
    | LastSuccessAt
    | LastFailureAt
    | LastFailureReason
    | LastHealthcheckAt
    | LastHealthcheckError
    | ConsecutiveFailures
    | CooldownUntil
    | BaseUrl
    | OtherKey(name: string)

  type Meta = map<MetaKey, string>

  datatype UpstreamAccount = UpstreamAccount(
    id: string,
    provider: string,
    displayName: string,
    email: string,
    status: AccountStatus,
    tier: string,
    weight: int,
    priority: int,
    supportsModels: seq<string>,
    meta: Meta,
    lastRefreshedAt: Time)

  datatype User = User(id: string, group: string, balance: real, totalQuota: real, disabled: bool)

  datatype ProviderAccess = ProviderAccess(provider: string, models: seq<string>)

  datatype ServicePackage = ServicePackage(
    id: string,
    priceCents: int,
    billingCycle: string,
    isActive: bool,
    providerAccess: seq<ProviderAccess>,
    allowCrossProviderFallback: bool)

  datatype ModelTarget = ModelTarget(provider: string, upstreamModel: string, priority: int)

  datatype ModelAliasPolicy = ModelAliasPolicy(alias: string, targets: seq<ModelTarget>)

  datatype Subscription = Subscription(
    id: string,
    userID: string,
    packageID: string,
    orderID: string,
    active: bool,
    startsAt: Time,
    expiresAt: Time,
    autoRenew: bool)

  datatype APIKey = APIKey(
    id: string,
    key: string,
    userID: string,
    packageID: string,
    active: bool,
    createdAt: Time,
    lastUsedAt: Time)

  datatype LogStatus = Dispatched | Completed | ProviderFailed | UpstreamFailed

  datatype UsageLog = UsageLog(
    id: string,
    apiKeyID: string,
    userID: string,
    modelAlias: string,
    provider: string,
    accountID: string,
    upstreamModel: string,
    status: LogStatus,
    streaming: bool,
    upstreamStatusCode: int,
    errorType: ErrorType,
    errorMessage: string,
    totalTokens: int,
    cost: real,
    createdAt: Time)

  datatype Order = Order(
    id: string,
    userID: string,
    packageID: string,
    paid: bool,
    amountCents: int,
    currency: string,
    billingCycle: string,
    autoRenew: bool,
    bindAPIKeyID: string,
    createAPIKey: bool,
    createdAt: Time,
    completedAt: Option<Time>,
    paymentID: string,
    subscriptionID: string)

  datatype Payment = Payment(
    id: string,
    orderID: string,
    userID: string,
    provider: string,
    paid: bool,
    amountCents: int,
    currency: string,
    providerRef: string,
    createdAt: Time,
    completedAt: Option<Time>)

  datatype WebhookEvent = WebhookEvent(id: string, provider: string, paymentID: string, receivedAt: Time)

  datatype PlatformData = PlatformData(
    users: seq<User>,
    accounts: seq<UpstreamAccount>,
    packages: seq<ServicePackage>,
    policies: seq<ModelAliasPolicy>,
    subscriptions: seq<Subscription>,
    apiKeys: seq<APIKey>,
    usageLogs: seq<UsageLog>,
    orders: seq<Order>,
    payments: seq<Payment>,
    webhookEvents: seq<WebhookEvent>)
}
