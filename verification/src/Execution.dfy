/** Walking a dispatch trace until one upstream answer is final. */
module Execution {
  import opened Wrappers
  import opened Text
  import opened Search
  import opened Timestamps
  import opened Domain
  import opened Access
  import opened Dispatch
  import Health
  import Accounts = AccountStore

  /** The error object of an upstream body, when there is one. */
  datatype ErrorBody = NoErrorBody | ErrorBody(kind: string, message: string)

  datatype Response = Response(statusCode: int, body: ErrorBody)

  /** What the provider call for a candidate returns. */
  datatype Reply = CallFailed(message: string) | Replied(response: Response)

  datatype DispatchResult = DispatchResult(
    apiKeyID: string,
    packageID: string,
    modelAlias: string,
    provider: string,
    accountID: string,
    upstreamModel: string,
    candidateCount: nat)

  datatype Outcome =
    | Delivered(response: Response, result: DispatchResult, log: UsageLog)
    | Aborted(error: string)

  const NO_CANDIDATE := "no provider candidate succeeded"
  const NO_ACCOUNT := "selected account not found in platform snapshot"
  const NO_PROVIDER := "provider not registered"
  const APPEND_FAILED := "usage log not stored"

  // ---- classification ----

  function UpstreamErrorType(statusCode: int): ErrorType {
    if statusCode == 401 || statusCode == 403 then AuthFailed
    else if statusCode == 429 then QuotaExceeded
    else if statusCode >= 500 then UpstreamUnavailable
    else UpstreamError
  }

  function ClassifyUpstreamError(r: Response): (ErrorType, string) {
    var fallback := "upstream request failed";
    match r.body
    case NoErrorBody => (UpstreamErrorType(r.statusCode), fallback)
    case ErrorBody(kind, text) =>
      var message := if TrimSpace(text) != "" then text else fallback;
      if kind == "insufficient_quota" then (QuotaExceeded, message)
      else if kind == "invalid_request_error" then (InvalidRequest, message)
      else if kind == "authentication_error" then (AuthFailed, message)
      else if kind == "model_not_found" then (ModelUnavailable, message)
      else (UpstreamErrorType(r.statusCode), message)
  }

  predicate ShouldFallback(e: ErrorType) {
    e == AuthFailed || e == QuotaExceeded || e == ModelUnavailable || e == UpstreamUnavailable || e == ProviderError
  }

  /** The walk moves on after this reply. */
  predicate MovesOn(reply: Reply) {
    reply.CallFailed? || (reply.response.statusCode >= 400 && ShouldFallback(ClassifyUpstreamError(reply.response).0))
  }

  // ---- what the classes mean ----

  predicate Names(r: Response, kind: string) {
    r.body.ErrorBody? && r.body.kind == kind
  }

  /** The body names no error kind that decides on its own. */
  predicate LeftToCode(r: Response) {
    && !Names(r, "insufficient_quota") && !Names(r, "invalid_request_error")
    && !Names(r, "authentication_error") && !Names(r, "model_not_found")
  }

  /** The upstream turned down the credentials. */
  predicate CredentialsRefused(r: Response) {
    r.statusCode >= 400 && (Names(r, "authentication_error") || (LeftToCode(r) && r.statusCode in {401, 403}))
  }

  predicate QuotaRefused(r: Response) {
    r.statusCode >= 400 && (Names(r, "insufficient_quota") || (LeftToCode(r) && r.statusCode == 429))
  }

  predicate ServerFailed(r: Response) {
    LeftToCode(r) && r.statusCode >= 500
  }

  /** The class of an error answer, for each class. */
  lemma ClassIff(r: Response)
    requires r.statusCode >= 400
    ensures var e := ClassifyUpstreamError(r).0;
            && (e == AuthFailed <==> CredentialsRefused(r))
            && (e == QuotaExceeded <==> QuotaRefused(r))
            && (e == UpstreamUnavailable <==> ServerFailed(r))
            && (e == InvalidRequest <==> Names(r, "invalid_request_error"))
            && (e == ModelUnavailable <==> Names(r, "model_not_found"))
            && (e == UpstreamError <==>
                LeftToCode(r) && r.statusCode != 401 && r.statusCode != 403 && r.statusCode != 429 &&
                    r.statusCode < 500)
  {
    hide TrimSpace;
    assert "insufficient_quota"[2] == 's' && "invalid_request_error"[2] == 'v' && "authentication_error"[2] == 't' &&
           "model_not_found"[2] == 'd';
  }

  /** The walk moves on after a failed call, and after an error answer unless the upstream calls the
      request invalid or gives none of the retryable kinds with a status that is neither 401, 403,
      429 nor 5xx. */
  lemma MovesOnIff(reply: Reply)
    ensures MovesOn(reply) <==>
            || reply.CallFailed?
            || CredentialsRefused(reply.response) || QuotaRefused(reply.response) || ServerFailed(reply.response)
            || (reply.response.statusCode >= 400 && Names(reply.response, "model_not_found"))
  {
    if reply.Replied? && reply.response.statusCode >= 400 {
      ClassIff(reply.response);
    }
    hide ClassifyUpstreamError;
  }

  // ---- one attempt ----

  datatype Stamp = Stamp(logID: string, createdAt: Time)

  function ResultFor(trace: DispatchTrace, c: Candidate): DispatchResult {
    DispatchResult(trace.apiKey.id, trace.apiKey.packageID, trace.modelAlias, c.provider, c.accountID, c.upstreamModel,
                   |trace.candidates|)
  }

  function NewLog(trace: DispatchTrace, c: Candidate, stream: bool, stamp: Stamp): UsageLog {
    UsageLog("log-" + stamp.logID, trace.apiKey.id, trace.apiKey.userID, trace.modelAlias, c.provider, c.accountID,
             c.upstreamModel, Dispatched, stream, 0, NoError, "", 0, 0.0, stamp.createdAt)
  }

  /** The log that records a reply. */
  function LogFor(trace: DispatchTrace, c: Candidate, stream: bool, stamp: Stamp, reply: Reply): UsageLog {
    var log := NewLog(trace, c, stream, stamp);
    match reply
    case CallFailed(message) => log.(status := ProviderFailed, errorType := ProviderError, errorMessage := message)
    case Replied(r) =>
      if r.statusCode < 400 then log.(status := Completed, upstreamStatusCode := r.statusCode)
      else
        var (kind, message) := ClassifyUpstreamError(r);
        log.(status := UpstreamFailed, upstreamStatusCode := r.statusCode, errorType := kind, errorMessage := message)
  }

  /** The control plane's end of the log appends; `failing` are the calls that will fail. */
  class LogAppender {
    var appended: seq<UsageLog>
    const failing: set<nat>

    constructor (failing: set<nat>)
      ensures appended == [] && this.failing == failing
    {
      this.appended := [];
      this.failing := failing;
    }

    method Append(log: UsageLog) returns (ok: bool)
      modifies this
      ensures appended == old(appended) + [log]
      ensures ok <==> |old(appended)| !in failing
    {
      ok := |appended| !in failing;
      appended := appended + [log];
    }
  }

  /** The providers' end of the calls: the account each call was made with. */
  class Upstream {
    var calls: seq<UpstreamAccount>

    constructor ()
      ensures calls == []
    {
      calls := [];
    }

    method Execute(account: UpstreamAccount, answer: Reply) returns (reply: Reply)
      modifies this
      ensures calls == old(calls) + [account] && reply == answer
    {
      calls := calls + [account];
      reply := answer;
    }
  }

  /** Everything the walk depends on besides the trace. */
  datatype World = World(
    accounts: seq<UpstreamAccount>,
    providers: set<string>,
    stream: bool,
    stamps: seq<Stamp>,
    replies: seq<Reply>)

  ghost predicate Covers(w: World, trace: DispatchTrace) {
    |w.stamps| == |w.replies| == |trace.candidates|
  }

  predicate HasAccount(w: World, id: string) {
    exists i :: 0 <= i < |w.accounts| && w.accounts[i].id == id
  }

  predicate Resolvable(w: World, c: Candidate) {
    HasAccount(w, c.accountID) && c.provider in w.providers
  }

  function LogAt(w: World, trace: DispatchTrace, i: nat): UsageLog
    requires i < |trace.candidates| && |w.stamps| == |w.replies| == |trace.candidates|
  {
    LogFor(trace, trace.candidates[i], w.stream, w.stamps[i], w.replies[i])
  }

  /** The logs of the first `n` attempts. */
  function LogsOf(w: World, trace: DispatchTrace, n: nat): (logs: seq<UsageLog>)
    requires n <= |trace.candidates| && |w.stamps| == |w.replies| == |trace.candidates|
    ensures |logs| == n
    ensures forall i :: 0 <= i < n ==> logs[i] == LogAt(w, trace, i)
  {
    seq(n, i requires 0 <= i < n => LogAt(w, trace, i))
  }

  /** The row that lookup by id finds for a candidate. */
  function FoundRow(w: World, c: Candidate): (k: nat)
    ensures k <= |w.accounts|
  {
    Accounts.IndexOf(w.accounts, c.accountID)
  }

  lemma FoundIff(w: World, c: Candidate)
    ensures FoundRow(w, c) < |w.accounts| <==> HasAccount(w, c.accountID)
  {
    if FoundRow(w, c) < |w.accounts| {
      assert w.accounts[FoundRow(w, c)].id == c.accountID;
    }
  }

  /** The message of the last failed call among the first `n` replies. */
  function LastCallError(replies: seq<Reply>, n: nat): Option<string>
    requires n <= |replies|
  {
    if n == 0 then None
    else if replies[n - 1].CallFailed? then Some(replies[n - 1].message)
    else LastCallError(replies, n - 1)
  }

  /** The first `n` candidates were attempted and all but possibly the last moved on. */
  ghost predicate Attempted(w: World, trace: DispatchTrace, n: nat)
    requires Covers(w, trace)
  {
    && n <= |trace.candidates|
    && (forall i :: 0 <= i < n ==>
       Resolvable(w, trace.candidates[i]) && FoundRow(w, trace.candidates[i]) < |w.accounts|)
    && (forall i :: 0 <= i < n - 1 ==> MovesOn(w.replies[i]))
  }

  /** The accounts that the first `n` calls are made with. */
  function CallsOf(w: World, trace: DispatchTrace, n: nat): (calls: seq<UpstreamAccount>)
    requires Covers(w, trace) && Attempted(w, trace, n)
    ensures |calls| == n
  {
    seq(n, i requires 0 <= i < n => w.accounts[FoundRow(w, trace.candidates[i])])
  }

  lemma NoneAttempted(w: World, trace: DispatchTrace)
    requires Covers(w, trace)
    ensures Attempted(w, trace, 0) && CallsOf(w, trace, 0) == [] && LogsOf(w, trace, 0) == []
  {}

  /** After a reply that moved on, one more candidate whose account and provider are there. */
  lemma OneMore(w: World, trace: DispatchTrace, i: nat)
    requires Covers(w, trace) && Attempted(w, trace, i) && i < |trace.candidates|
    requires i > 0 ==> MovesOn(w.replies[i - 1])
    requires Resolvable(w, trace.candidates[i])
    ensures Attempted(w, trace, i + 1) && FoundRow(w, trace.candidates[i]) < |w.accounts|
    ensures CallsOf(w, trace, i + 1) == CallsOf(w, trace, i) + [w.accounts[FoundRow(w, trace.candidates[i])]]
    ensures LogsOf(w, trace, i + 1) == LogsOf(w, trace, i) + [LogAt(w, trace, i)]
  {
    hide MovesOn, LogAt, FoundRow;
    FoundIff(w, trace.candidates[i]);
  }

  /** How a walk that attempted `n` candidates ends. */
  ghost predicate Ends(w: World, trace: DispatchTrace, n: nat, stored: bool, outcome: Outcome)
    requires Covers(w, trace) && n <= |trace.candidates|
  {
    if n > 0 && !MovesOn(w.replies[n - 1]) then
      if w.replies[n - 1].response.statusCode < 400 && !stored then outcome == Aborted(APPEND_FAILED)
      else outcome == Delivered(w.replies[n - 1].response, ResultFor(trace, trace.candidates[n - 1]),
          LogAt(w, trace, n - 1))
    else if n < |trace.candidates| then
      && !Resolvable(w, trace.candidates[n])
      && outcome == Aborted(if HasAccount(w, trace.candidates[n].accountID) then NO_PROVIDER else NO_ACCOUNT)
    else
      outcome == Aborted(match LastCallError(w.replies, n) case Some(e) => e case None => NO_CANDIDATE)
  }

  lemma FoundBy(w: World, c: Candidate, k: nat)
    requires k == FirstIndex(w.accounts, (a: UpstreamAccount) => a.id == c.accountID)
    ensures FoundRow(w, c) == k
  {}

  /** What one pass through the loop decides: try the next candidate, or stop. */
  datatype Decision = Next(callError: Option<string>) | Stop(outcome: Outcome)

  /** One provider call, its log and its classification. */
  method Attempt(upstream: Upstream, appender: LogAppender, w: World, trace: DispatchTrace, i: nat,
                 account: UpstreamAccount) returns (d: Decision)
    requires Covers(w, trace) && i < |trace.candidates|
    modifies upstream, appender
    ensures upstream.calls == old(upstream.calls) + [account]
    ensures appender.appended == old(appender.appended) + [LogAt(w, trace, i)]
    ensures d.Next? <==> MovesOn(w.replies[i])
    ensures d.Next? ==> d.callError == if w.replies[i].CallFailed? then Some(w.replies[i].message) else None
    ensures d.Stop? ==>
              if w.replies[i].response.statusCode < 400 && |old(appender.appended)| in appender.failing
              then d.outcome == Aborted(APPEND_FAILED)
              else
                d.outcome ==
                Delivered(w.replies[i].response, ResultFor(trace, trace.candidates[i]), LogAt(w, trace, i))
  {
    hide ClassifyUpstreamError, ShouldFallback;
    var result := ResultFor(trace, trace.candidates[i]);
    var log := NewLog(trace, trace.candidates[i], w.stream, w.stamps[i]);
    var reply := upstream.Execute(account, w.replies[i]);
    match reply {
      case CallFailed(message) =>
        log := log.(status := ProviderFailed);
        log := log.(errorType := ProviderError);
        log := log.(errorMessage := message);
        var _ := appender.Append(log);
        return Next(Some(message));
      case Replied(response) =>
        log := log.(upstreamStatusCode := response.statusCode);
        if response.statusCode < 400 {
          log := log.(status := Completed);
          var ok := appender.Append(log);
          return Stop(if ok then Delivered(response, result, log) else Aborted(APPEND_FAILED));
        }
        log := log.(status := UpstreamFailed);
        var (errorType, errorMessage) := ClassifyUpstreamError(response);
        log := log.(errorType := errorType);
        log := log.(errorMessage := errorMessage);
        var _ := appender.Append(log);
        return if ShouldFallback(log.errorType) then Next(None) else Stop(Delivered(response, result, log));
    }
  }

  method ExecuteAgainstTrace(upstream: Upstream, appender: LogAppender, w: World, trace: DispatchTrace)
    returns (outcome: Outcome, ghost n: nat)
    requires Covers(w, trace)
    modifies upstream, appender
    ensures Attempted(w, trace, n)
    ensures upstream.calls == old(upstream.calls) + CallsOf(w, trace, n)
    ensures appender.appended == old(appender.appended) + LogsOf(w, trace, n)
    ensures Ends(w, trace, n, n == 0 || |old(appender.appended)| + n - 1 !in appender.failing, outcome)
  {
    hide MovesOn, LogAt, ResultFor, FoundRow, HasAccount, Attempted, CallsOf, LogsOf;
    n := 0;
    var lastProviderErr: Option<string> := None;
    ghost var before, called := appender.appended, upstream.calls;
    NoneAttempted(w, trace);
    for i := 0 to |trace.candidates|
      invariant n == i
      invariant Attempted(w, trace, i)
      invariant i > 0 ==> MovesOn(w.replies[i - 1])
      invariant appender.appended == before + LogsOf(w, trace, i)
      invariant upstream.calls == called + CallsOf(w, trace, i)
      invariant lastProviderErr == LastCallError(w.replies, i)
    {
      var candidate := trace.candidates[i];
      var k := FindFirst(w.accounts, (a: UpstreamAccount) => a.id == candidate.accountID);
      FoundBy(w, candidate, k);
      FoundIff(w, candidate);
      if k == |w.accounts| {
        return Aborted(NO_ACCOUNT), i;
      }
      if candidate.provider !in w.providers {
        return Aborted(NO_PROVIDER), i;
      }
      OneMore(w, trace, i);
      n := i + 1;
      var d := Attempt(upstream, appender, w, trace, i, w.accounts[k]);
      match d {
        case Stop(o) => return o, n;
        case Next(callError) =>
          if callError.Some? {
            lastProviderErr := callError;
          }
      }
    }
    match lastProviderErr {
      case Some(e) => return Aborted(e), n;
      case None => return Aborted(NO_CANDIDATE), n;
    }
  }

  // ---- consequences ----

  /** Executing a trace against the snapshot it was computed from never fails account lookup. */
  lemma SnapshotResolves(data: PlatformData, alias: string, rawKey: string, now: Time, trace: DispatchTrace, w: World,
                         i: nat)
    requires IsTrace(data, alias, rawKey, now, trace) && w.accounts == data.accounts
    requires i < |trace.candidates|
    ensures HasAccount(w, trace.candidates[i].accountID)
    ensures trace.candidates[i].provider in w.providers ==> Resolvable(w, trace.candidates[i])
  {
    hide Accepts, ProviderAllowed, PairBefore, FirstEligible;
    var q := RequestFor(data, alias, rawKey, now);
    var origin: seq<Pair> :| ListsCandidates(q, trace.candidates, origin);
    assert q.accounts[origin[i].account].id == trace.candidates[i].accountID;
  }

  /** The call for a candidate is made with the row that the candidate was built from exactly when
      no earlier row repeats the id; otherwise it is made with that earlier row. */
  lemma CalledRowIff(data: PlatformData, alias: string, rawKey: string, now: Time, trace: DispatchTrace, w: World,
                     i: nat, p: Pair)
    requires BuiltFrom(data, alias, rawKey, now, trace, i, p) && w.accounts == data.accounts && i < |trace.candidates|
    ensures p.account < |w.accounts| && FoundRow(w, trace.candidates[i]) <= p.account
    ensures FoundRow(w, trace.candidates[i]) == p.account <==>
            forall j :: 0 <= j < p.account ==> data.accounts[j].id != data.accounts[p.account].id
  {
    BuiltFromFacts(data, alias, rawKey, now, trace, i, p);
    hide BuiltFrom, Accepts, Collected, RequestFor, PolicyIndex, SkipReasonFor;
    assert trace.candidates[i].accountID == data.accounts[p.account].id;
  }

  /** So, with every provider registered, the walk ends with an answer that was given or with
      every candidate tried: it stops early only on a reply that is final. */
  lemma SnapshotExecution(data: PlatformData, alias: string, rawKey: string, now: Time, trace: DispatchTrace, w: World,
                          n: nat, stored: bool, outcome: Outcome)
    requires IsTrace(data, alias, rawKey, now, trace) && w.accounts == data.accounts
    requires forall c :: c in trace.candidates ==> c.provider in w.providers
    requires Covers(w, trace) && Attempted(w, trace, n) && Ends(w, trace, n, stored, outcome)
    ensures 0 < n <= |trace.candidates|
    ensures outcome.Delivered? ==>
              && outcome.response == w.replies[n - 1].response && outcome.log == LogAt(w, trace, n - 1)
              && outcome.result.apiKeyID == trace.apiKey.id && outcome.result.packageID == trace.apiKey.packageID
              && outcome.result.modelAlias == trace.modelAlias
              && outcome.result.candidateCount == |trace.candidates|
              && outcome.result.provider == trace.candidates[n - 1].provider
              && outcome.result.accountID == trace.candidates[n - 1].accountID
              && outcome.result.upstreamModel == trace.candidates[n - 1].upstreamModel
    ensures n < |trace.candidates| ==> !MovesOn(w.replies[n - 1])
    ensures stored ==> (outcome.Aborted? <==> forall i :: 0 <= i < |trace.candidates| ==> MovesOn(w.replies[i]))
  {
    hide Resolvable, MovesOn, LastCallError, LogAt, IsTrace;
    TraceNonempty(data, alias, rawKey, now, trace);
    if n < |trace.candidates| {
      assert trace.candidates[n] in trace.candidates;
      SnapshotResolves(data, alias, rawKey, now, trace, w, n);
    }
  }

  lemma TraceNonempty(data: PlatformData, alias: string, rawKey: string, now: Time, trace: DispatchTrace)
    requires IsTrace(data, alias, rawKey, now, trace)
    ensures |trace.candidates| > 0
  {
    hide Accepts, ListsCandidates;
  }

  /** What the log of an attempt says, in terms of the candidate and the reply alone. */
  ghost predicate Records(log: UsageLog, trace: DispatchTrace, c: Candidate, stream: bool, stamp: Stamp, reply: Reply) {
    && log.id == "log-" + stamp.logID && log.createdAt == stamp.createdAt && log.streaming == stream
    && log.apiKeyID == trace.apiKey.id && log.userID == trace.apiKey.userID && log.modelAlias == trace.modelAlias
    && log.provider == c.provider && log.accountID == c.accountID && log.upstreamModel == c.upstreamModel
    && log.totalTokens == 0 && log.cost == 0.0
    && log.upstreamStatusCode == (if reply.Replied? then reply.response.statusCode else 0)
    && (log.status == ProviderFailed <==> reply.CallFailed?)
    && (log.status == Completed <==> reply.Replied? && reply.response.statusCode < 400)
    && (log.status == UpstreamFailed <==> reply.Replied? && reply.response.statusCode >= 400)
    && (log.errorType == NoError <==> log.status == Completed)
    && (log.errorType == ProviderError <==> log.status == ProviderFailed)
    && (log.errorType == AuthFailed <==> reply.Replied? && CredentialsRefused(reply.response))
    && (log.errorType == QuotaExceeded <==> reply.Replied? && QuotaRefused(reply.response))
    && (log.errorType == UpstreamUnavailable <==> reply.Replied? && ServerFailed(reply.response))
    && (log.errorType == InvalidRequest <==>
        log.status == UpstreamFailed && Names(reply.response, "invalid_request_error"))
    && (log.errorType == ModelUnavailable <==>
        log.status == UpstreamFailed && Names(reply.response, "model_not_found"))
    && (log.status == Completed ==> log.errorMessage == "")
    && (log.status == ProviderFailed ==> log.errorMessage == reply.message)
    && (log.status == UpstreamFailed ==>
         log.errorMessage ==
         if reply.response.body.ErrorBody? && !Blank(reply.response.body.message) then reply.response.body.message
         else "upstream request failed")
  }

  lemma LogRecords(w: World, trace: DispatchTrace, i: nat)
    requires Covers(w, trace) && i < |trace.candidates|
    ensures Records(LogAt(w, trace, i), trace, trace.candidates[i], w.stream, w.stamps[i], w.replies[i])
  {
    if w.replies[i].Replied? && w.replies[i].response.statusCode >= 400 {
      var r := w.replies[i].response;
      ClassIff(r);
      MessageIs(r);
    }
    hide ClassifyUpstreamError, CredentialsRefused, QuotaRefused, Blank;
  }

  lemma MessageIs(r: Response)
    ensures ClassifyUpstreamError(r).1 ==
            if r.body.ErrorBody? && !Blank(r.body.message) then r.body.message else "upstream request failed"
  {
    if r.body.ErrorBody? {
      var _, _ := TrimmedPart(r.body.message);
    }
    hide TrimSpace, Blank;
  }

  /** The outcome that the control plane records on the account for a log. */
  function OutcomeOf(log: UsageLog, policy: Health.HealthPolicy): Health.HealthOp {
    Health.UsageOutcome(log.errorType, log.errorMessage, policy)
  }

  /** What one reply does to the account it came from: refused credentials, and nothing else, make it
      invalid; a completed call alone resets the counter; a refused quota, a failing upstream and a
      failed call each count one failure, and of these the quota never starts a cooldown. */
  lemma ReplyEffect(w: World, trace: DispatchTrace, i: nat, a: UpstreamAccount, policy: Health.HealthPolicy, now: Time)
    requires Covers(w, trace) && i < |trace.candidates| && Health.AccountConsecutiveFailures(a) < MAX_INT64
    ensures var reply := w.replies[i];
            var b := Health.Apply(a, OutcomeOf(LogAt(w, trace, i), policy), now);
            var completed := reply.Replied? && reply.response.statusCode < 400;
            var failed := reply.CallFailed? || ServerFailed(reply.response);
            && (b.status == Invalid <==>
                (reply.Replied? && CredentialsRefused(reply.response)) || (a.status == Invalid && !completed))
            && Health.AccountConsecutiveFailures(b) ==
               (if completed then 0
                else Health.AccountConsecutiveFailures(a) + (if failed || QuotaRefused(reply.response) then 1 else 0))
            && (!completed && !failed ==> Health.AccountCooldownUntil(b) == Health.AccountCooldownUntil(a))
            && (completed ==> Health.AccountCooldownUntil(b) == None)
  {
    LogRecords(w, trace, i);
    hide LogAt, Health.Apply, Health.AccountCooldownUntil, Health.AccountConsecutiveFailures, CredentialsRefused,
        LeftToCode;
    var op := OutcomeOf(LogAt(w, trace, i), policy);
    Health.VerdictStep(a, op, now);
    Health.CounterStep(a, op, now);
    Health.DeadlineStep(a, op, now);
  }

  /** Once an upstream refused the credentials of an account and the outcome was recorded, the row it
      was recorded on is not selected until an operation on its id reactivates it. */
  lemma RefusedNotSelected(w: World, trace: DispatchTrace, i: nat, accounts: seq<UpstreamAccount>,
                           policy: Health.HealthPolicy, t: Time, later: seq<Accounts.TableStep>,
                           data: PlatformData, alias: string, rawKey: string, now: Time, next: DispatchTrace)
    requires Covers(w, trace) && i < |trace.candidates|
    requires w.replies[i].Replied? && CredentialsRefused(w.replies[i].response)
    requires var id := trace.candidates[i].accountID;
             && Accounts.IndexOf(accounts, id) < |accounts|
             && (forall s :: s in later && s.Operated? && s.id == id ==> Health.LeavesUnusable(s.step.op))
             && data.accounts ==
                Accounts.TableRun(Accounts.ApplyAt(accounts, id, OutcomeOf(LogAt(w, trace, i), policy), t), later)
    requires IsTrace(data, alias, rawKey, now, next)
    ensures !SelectedRow(data, alias, rawKey, now, next, Accounts.IndexOf(accounts, trace.candidates[i].accountID))
  {
    LogRecords(w, trace, i);
    var op := OutcomeOf(LogAt(w, trace, i), policy);
    assert Health.Invalidates(op);
    hide LogAt, IsTrace, SelectedRow, Accounts.TableRun, Health.LeavesUnusable, Accounts.ApplyAt;
    InvalidatedNotSelected(accounts, trace.candidates[i].accountID, op, t, later, data, alias, rawKey, now, next);
  }

  /** Every attempt moved past left a retryable error class; a completed log is the last one. */
  lemma LogClasses(w: World, trace: DispatchTrace, n: nat)
    requires Covers(w, trace) && Attempted(w, trace, n)
    ensures var logs := LogsOf(w, trace, n);
            && (forall i :: 0 <= i < n - 1 ==> ShouldFallback(logs[i].errorType) && logs[i].status != Completed)
            && (forall i :: 0 <= i < n && logs[i].status == Completed ==> i == n - 1 && logs[i].errorType == NoError)
            && (forall i :: 0 <= i < n ==>
               logs[i].accountID == trace.candidates[i].accountID && logs[i].userID == trace.apiKey.userID)
  {
    hide ClassifyUpstreamError, Resolvable;
  }

  /** The walk does not read skip reasons: its first attempt is the selected candidate
      exactly when the first candidate is eligible. */
  lemma FirstAttemptSelectedIff(data: PlatformData, alias: string, rawKey: string, now: Time, trace: DispatchTrace)
    requires IsTrace(data, alias, rawKey, now, trace)
    ensures |trace.candidates| > 0
    ensures trace.candidates[0] == trace.selected <==> trace.candidates[0].skipReason == Eligible
  {
    hide Accepts, ListsCandidates;
  }

  // ---- a request whose first attempt is a disabled account ----

  /** With one target and two of its accounts, the one that ranks higher is the first candidate. */
  lemma TwoAccounts(q: Request, first: UpstreamAccount, second: UpstreamAccount, target: ModelTarget)
    requires q.accounts == [first, second] && q.targets == [target]
    requires first.provider == second.provider == target.provider
    requires ProviderAllowed(q.package.providerAccess, target.provider, q.alias)
    requires HigherRank(Build(first, target, q.now), Build(second, target, q.now))
    ensures ListsCandidates(q, [Build(first, target, q.now), Build(second, target, q.now)], [Pair(0, 0), Pair(0, 1)])
  {
    hide ProviderAllowed, Build, HigherRank, PairBefore;
    var origin := [Pair(0, 0), Pair(0, 1)];
    PairBeforeIff(q, Pair(0, 0), Pair(0, 1));
    forall p
      ensures p in origin <==> Collected(q, p)
    {
      assert Permitted(q, p) <==> p.target == 0 && p.account < 2;
    }
    hide Collected;
    assert CandidateAt(q, Pair(0, 0)) == Build(first, target, q.now);
    assert CandidateAt(q, Pair(0, 1)) == Build(second, target, q.now);
  }

  function Shut(): UpstreamAccount {
    UpstreamAccount("shut", "claude", "", "", Disabled, "", 1, 10, ["opus"], map[], 0)
  }

  function Open(id: string): UpstreamAccount {
    UpstreamAccount(id, "claude", "", "", Active, "", 1, 0, ["opus"], map[], 0)
  }

  /** In cooldown until the first second. */
  function Chilled(): UpstreamAccount {
    var meta := map[CooldownUntil := FormatRFC3339(SECOND)];
    UpstreamAccount("cool", "claude", "", "", Active, "", 1, 10, ["opus"], meta, 0)
  }

  function Opus(): ModelTarget {
    ModelTarget("claude", "opus", 0)
  }

  function OnlyPackage(): ServicePackage {
    ServicePackage("p", 0, "", true, [ProviderAccess("claude", ["m"])], false)
  }

  function OnlyKey(): APIKey {
    APIKey("k", "raw", "u", "p", true, 0, 0)
  }

  /** One user with one live subscription, and two accounts. */
  function Duo(first: UpstreamAccount, second: UpstreamAccount): PlatformData {
    PlatformData([User("u", "", 0.0, 0.0, false)], [first, second], [OnlyPackage()], [ModelAliasPolicy("m", [Opus()])],
                 [Subscription("s", "u", "p", "", true, 0, 1, false)], [OnlyKey()], [], [], [], [])
  }

  /** The trace that selects the second account. */
  function DuoTrace(first: UpstreamAccount, second: UpstreamAccount): DispatchTrace {
    var cs := [Build(first, Opus(), 0), Build(second, Opus(), 0)];
    DispatchTrace("m", OnlyKey(), OnlyPackage(), cs, cs[1])
  }

  lemma DuoRequest(first: UpstreamAccount, second: UpstreamAccount)
    ensures var d := Duo(first, second);
            && Accepts(d, "raw", 0) && PolicyIndex(d, "m") < |d.policies|
            && GrantOf(d, "raw", 0).key == OnlyKey() && GrantOf(d, "raw", 0).package == OnlyPackage()
            && RequestFor(d, "m", "raw", 0) == Request([first, second], [Opus()], OnlyPackage(), "m", 0)
  {
    hide Opus;
    var d := Duo(first, second);
    assert Entitles(d.subscriptions[0], "u", "p", 0);
    assert KeyIndex(d, "raw") == 0 && UserIndex(d, "u") == 0 && PackageIndex(d, "p") == 0 && PolicyIndex(d, "m") == 0;
  }

  lemma OpusAllowed()
    ensures Opus().provider == "claude" && ProviderAllowed(OnlyPackage().providerAccess, "claude", "m")
  {
    var access := OnlyPackage().providerAccess;
    assert access[0].provider == "claude" && "m" in access[0].models;
  }

  /** When the first account outranks the second and only the second is eligible. */
  lemma DuoTraced(first: UpstreamAccount, second: UpstreamAccount)
    requires first.provider == second.provider == "claude"
    requires HigherRank(Build(first, Opus(), 0), Build(second, Opus(), 0))
    requires Build(first, Opus(), 0).skipReason != Eligible && Build(second, Opus(), 0).skipReason == Eligible
    ensures IsTrace(Duo(first, second), "m", "raw", 0, DuoTrace(first, second))
    ensures SelectedRow(Duo(first, second), "m", "raw", 0, DuoTrace(first, second), 1)
  {
    hide Opus, OnlyKey, OnlyPackage, Build, ProviderAllowed, HigherRank, Accepts, ListsCandidates, Duo;
    DuoRequest(first, second);
    OpusAllowed();
    hide RequestFor, GrantOf, PolicyIndex;
    var d, trace, origin := Duo(first, second), DuoTrace(first, second), [Pair(0, 0), Pair(0, 1)];
    TwoAccounts(RequestFor(d, "m", "raw", 0), first, second, Opus());
    assert trace.candidates[1] == trace.selected;
    assert FirstEligibleAt(trace.candidates, 1);
    assert ListsCandidates(RequestFor(d, "m", "raw", 0), trace.candidates, origin) && origin[1] == Pair(0, 1);
    assert BuiltFrom(d, "m", "raw", 0, trace, 1, Pair(0, 1));
  }

  lemma OpenReason(id: string)
    ensures Open(id).id == id && Open(id).provider == "claude" && Build(Open(id), Opus(), 0).skipReason == Eligible
  {
    hide Atoi, ParseRFC3339, TrimSpace;
    assert Health.MetaText(Open(id).meta, CooldownUntil) == "" && Health.MetaText(Open(id).meta, ExpiresAt) == "";
  }

  lemma ShutReason(id: string)
    ensures Shut().id == "shut" && Shut().provider == "claude" && Build(Shut(), Opus(), 0).skipReason == SkipDisabled
    ensures HigherRank(Build(Shut(), Opus(), 0), Build(Open(id), Opus(), 0))
  {
    hide Atoi, ParseRFC3339, TrimSpace;
  }

  lemma CoolingReason(id: string)
    ensures Chilled().id == "cool" && Chilled().provider == "claude" && Health.AccountInCooldown(Chilled(), 0)
    ensures Build(Chilled(), Opus(), 0).skipReason == SkipCooldown
    ensures HigherRank(Build(Chilled(), Opus(), 0), Build(Open(id), Opus(), 0))
  {
    hide FormatRFC3339, ParseRFC3339, Atoi, TrimSpace;
    assert Representable(SECOND);
    Health.MetaTimeOfStored(Chilled().meta, CooldownUntil, SECOND);
  }

  lemma BuiltID(a: UpstreamAccount, t: ModelTarget, now: Time)
    ensures Build(a, t, now).accountID == a.id
  {
    hide SkipReasonFor;
  }

  /** The failing side is real: in this request the walk tries the disabled account first, though
      the active one is selected. */
  lemma DisabledTriedFirst()
    ensures var d, trace := Duo(Shut(), Open("open")), DuoTrace(Shut(), Open("open"));
            && IsTrace(d, "m", "raw", 0, trace) && Accounts.UniqueIDs(d.accounts)
            && trace.candidates[0].skipReason == SkipDisabled && trace.candidates[0] != trace.selected
  {
    hide IsTrace, SelectedRow, Build, Shut, Open, HigherRank;
    ShutReason("open");
    OpenReason("open");
    DuoTraced(Shut(), Open("open"));
    assert "open"[0] != "shut"[0];
  }

  /** With repeated ids the wrong row can be called: both rows bear one id, the second is selected, and the
      lookup finds the first, which is in cooldown. */
  lemma CoolingRowCalled(w: World)
    requires w.accounts == Duo(Chilled(), Open("cool")).accounts
    ensures var d, trace := Duo(Chilled(), Open("cool")), DuoTrace(Chilled(), Open("cool"));
            && IsTrace(d, "m", "raw", 0, trace) && SelectedRow(d, "m", "raw", 0, trace, 1)
            && trace.selected.accountID == d.accounts[0].id && Health.AccountInCooldown(d.accounts[0], 0)
            && FoundRow(w, trace.selected) == 0
  {
    hide IsTrace, SelectedRow, Build, Chilled, Open, HigherRank, Health.AccountInCooldown;
    CoolingReason("cool");
    OpenReason("cool");
    DuoTraced(Chilled(), Open("cool"));
    BuiltID(Open("cool"), Opus(), 0);
  }
}
