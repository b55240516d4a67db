/**
 * The licensing tables as values.  A row's id and creation order are both its
 * position, so "newest" is the last matching row.  Times are milliseconds.
 */
module LicensingData {
  import opened Prelude

  const HOUR_MS := 3600000
  const TOKEN_LIFETIME_MS := 48 * HOUR_MS
  const TRIAL_MS := 14 * 24 * HOUR_MS
  const JWT_LIFETIME_S := 48 * 3600
  const RATE_LIMIT_WINDOW_MS := HOUR_MS
  const RATE_LIMIT_MAX_ATTEMPTS := 5
  const MAX_STALENESS_MS := 48 * HOUR_MS
  const MONTHLY_PLAN := "desktop_pro_monthly"
  const ANNUAL_PLAN := "desktop_pro_annual"

  datatype Status = Trialing | Active | PastDue | Canceled

  datatype Account = Account(email: string, trialUsed: bool)

  datatype Subscription = Subscription(
    account: nat,
    plan: string,
    status: Status,
    interval: string,
    periodStart: Option<nat>,
    periodEnd: Option<nat>,
    cancelAtPeriodEnd: bool)

  datatype Token = Token(
    account: nat,
    fingerprint: Option<string>,
    boundAt: Option<nat>,
    issuedAt: nat,
    expiresAt: nat,
    revokedAt: Option<nat>)

  datatype PaymentRecord = PaymentRecord(
    account: nat,
    subscription: Option<nat>,
    remoteSubscription: Option<string>,
    remotePayment: Option<string>)

  datatype Decision =
    | AllowNewTrial
    | BlockedEmailReused
    | BlockedDeviceReused
    | RecognizedReturningDevice(status: Status)

  datatype EventKind =
    | ActivationAttempt(email: string)
    | LicenseActivated
    | LicenseDeactivated
    | BindingReset(reason: string)
    | TokenReissued(reason: string)
    | TrialGuard(decision: Decision)
    | TrialStarted
    | JwtVerificationFailed
    | SubscriptionCancelled(atPeriodEnd: bool)
    | SubscriptionReactivated
    | RefundIssued(reason: string)
    | ReconciliationCorrection(subscription: nat, was: Status, now: Status)
    | WebhookProcessed(eventId: string)

  datatype AuditRow = AuditRow(kind: EventKind, account: Option<nat>, device: Option<string>, at: nat)

  datatype Issuer = ByActivation | ByTrial | ByReturningDevice | ByRefresh | ByReissue

  /**
   * A signed licence token's claims, with who issued it and for which account's
   * subscription; `issuedAt` and `expiresAt` are the iat and exp claims in seconds.
   */
  datatype Jwt = Jwt(
    sub: string,
    device: string,
    plan: string,
    interval: string,
    issuedAt: nat,
    expiresAt: nat,
    issuer: Issuer,
    account: nat)

  datatype Db = Db(
    now: nat,
    accounts: seq<Account>,
    subscriptions: seq<Subscription>,
    tokens: seq<Token>,
    payments: seq<PaymentRecord>,
    audit: seq<AuditRow>,
    issued: seq<Jwt>)

  const EMPTY_DB := Db(0, [], [], [], [], [], [])

  datatype ApiError =
    | ValidationError
    | RateLimited
    | PaymentUnavailable
    | PaymentVerificationFailed
    | DeviceAlreadyBound
    | DeviceMismatch
    | LicenseInvalid
    | NotFound
    | InvalidJwt
    | RefundFailed
    | ConstraintViolation

  type Answer = Result<(), ApiError>

  // ---- Queries -------------------------------------------------------------------

  function FindAccount(accounts: seq<Account>, email: string): (a: Option<nat>)
    ensures a.Some? ==> a.value < |accounts| && accounts[a.value].email == email
                        && forall i :: a.value < i < |accounts| ==> accounts[i].email != email
    ensures a.None? ==> forall i :: 0 <= i < |accounts| ==> accounts[i].email != email
  {
    if accounts == [] then None
    else if accounts[|accounts| - 1].email == email then Some(|accounts| - 1)
    else FindAccount(accounts[..|accounts| - 1], email)
  }

  function NewestSubscription(subscriptions: seq<Subscription>, account: nat): (s: Option<nat>)
    ensures s.Some? ==> s.value < |subscriptions| && subscriptions[s.value].account == account
                        && forall i :: s.value < i < |subscriptions| ==> subscriptions[i].account != account
    ensures s.None? ==> forall i :: 0 <= i < |subscriptions| ==> subscriptions[i].account != account
  {
    if subscriptions == [] then None
    else if subscriptions[|subscriptions| - 1].account == account then Some(|subscriptions| - 1)
    else NewestSubscription(subscriptions[..|subscriptions| - 1], account)
  }

  function NewestToken(tokens: seq<Token>, account: nat): (t: Option<nat>)
    ensures t.Some? ==> t.value < |tokens| && tokens[t.value].account == account
                        && forall i :: t.value < i < |tokens| ==> tokens[i].account != account
    ensures t.None? ==> forall i :: 0 <= i < |tokens| ==> tokens[i].account != account
  {
    if tokens == [] then None
    else if tokens[|tokens| - 1].account == account then Some(|tokens| - 1)
    else NewestToken(tokens[..|tokens| - 1], account)
  }

  function FindToken(tokens: seq<Token>, device: string): (t: Option<nat>)
    ensures t.Some? ==> t.value < |tokens| && tokens[t.value].fingerprint == Some(device)
                        && forall i :: t.value < i < |tokens| ==> tokens[i].fingerprint != Some(device)
    ensures t.None? ==> forall i :: 0 <= i < |tokens| ==> tokens[i].fingerprint != Some(device)
  {
    if tokens == [] then None
    else if tokens[|tokens| - 1].fingerprint == Some(device) then Some(|tokens| - 1)
    else FindToken(tokens[..|tokens| - 1], device)
  }

  /** The newest provider record kept for a subscription row. */
  function RecordFor(payments: seq<PaymentRecord>, subscription: nat): (r: Option<nat>)
    ensures r.Some? ==> r.value < |payments| && payments[r.value].subscription == Some(subscription)
                        && forall i :: r.value < i < |payments| ==> payments[i].subscription != Some(subscription)
    ensures r.None? ==> forall i :: 0 <= i < |payments| ==> payments[i].subscription != Some(subscription)
  {
    if payments == [] then None
    else if payments[|payments| - 1].subscription == Some(subscription) then Some(|payments| - 1)
    else RecordFor(payments[..|payments| - 1], subscription)
  }

  /** The newest provider record naming a remote subscription. */
  function RecordOfRemote(payments: seq<PaymentRecord>, remote: string): (r: Option<nat>)
    ensures r.Some? ==> r.value < |payments| && payments[r.value].remoteSubscription == Some(remote)
                        && forall i :: r.value < i < |payments| ==> payments[i].remoteSubscription != Some(remote)
    ensures r.None? ==> forall i :: 0 <= i < |payments| ==> payments[i].remoteSubscription != Some(remote)
  {
    if payments == [] then None
    else if payments[|payments| - 1].remoteSubscription == Some(remote) then Some(|payments| - 1)
    else RecordOfRemote(payments[..|payments| - 1], remote)
  }

  predicate IsCharge(p: PaymentRecord, account: nat) {
    p.account == account && p.remotePayment.Some?
  }

  /** The newest provider record of an account that holds a payment. */
  function ChargeOf(payments: seq<PaymentRecord>, account: nat): (r: Option<nat>)
    ensures r.Some? ==> r.value < |payments|
                        && payments[r.value].account == account && payments[r.value].remotePayment.Some?
                        && forall i :: r.value < i < |payments| ==> !IsCharge(payments[i], account)
    ensures r.None? ==> forall i :: 0 <= i < |payments| ==> !IsCharge(payments[i], account)
  {
    if payments == [] then None
    else if IsCharge(payments[|payments| - 1], account) then Some(|payments| - 1)
    else ChargeOf(payments[..|payments| - 1], account)
  }

  /** Positions of the audit rows of one kind logged at or after a time: what a windowed count counts. */
  function Recent(audit: seq<AuditRow>, kind: EventKind, since: int): set<nat> {
    set i | 0 <= i < |audit| && audit[i].kind == kind && since <= audit[i].at
  }

  lemma RecentGrows(audit: seq<AuditRow>, last: AuditRow, kind: EventKind, since: int)
    ensures Recent(audit + [last], kind, since) ==
            Recent(audit, kind, since) + if last.kind == kind && since <= last.at then {|audit|} else {}
  {
  }

  lemma RecentSnoc(audit: seq<AuditRow>, i: nat, kind: EventKind, since: int)
    requires i < |audit|
    ensures |Recent(audit[..i + 1], kind, since)| ==
            |Recent(audit[..i], kind, since)| + if audit[i].kind == kind && since <= audit[i].at then 1 else 0
  {
    assert audit[..i + 1] == audit[..i] + [audit[i]];
    RecentGrows(audit[..i], audit[i], kind, since);
    assert i !in Recent(audit[..i], kind, since);
  }

  lemma {:induction false} RecentIsSmall(audit: seq<AuditRow>, kind: EventKind, since: int)
    ensures |Recent(audit, kind, since)| <= |audit|
  {
    if audit != [] {
      RecentIsSmall(audit[..|audit| - 1], kind, since);
      RecentSnoc(audit, |audit| - 1, kind, since);
      assert audit[..|audit| - 1 + 1] == audit;
    }
  }

  predicate DeviceStartedTrial(audit: seq<AuditRow>, device: string) {
    exists i :: 0 <= i < |audit| && audit[i].kind == TrialStarted && audit[i].device == Some(device)
  }

  predicate WebhookSeen(audit: seq<AuditRow>, eventId: string) {
    exists i :: 0 <= i < |audit| && audit[i].kind == WebhookProcessed(eventId)
  }

  /** States in which access may be renewed; past_due is the grace period. */
  predicate Refreshable(s: Status) {
    s == Trialing || s == Active || s == PastDue
  }

  /** What JavaScript's String.trim strips: ECMAScript white space and line terminators. */
  predicate IsSpace(c: char) {
    || '\U{0009}' <= c <= '\U{000D}' || c == ' ' || c == '\U{00A0}' || c == '\U{1680}'
    || '\U{2000}' <= c <= '\U{200A}' || c == '\U{2028}' || c == '\U{2029}'
    || c == '\U{202F}' || c == '\U{205F}' || c == '\U{3000}' || c == '\U{FEFF}'
  }

  predicate Blank(text: string) {
    forall c :: c in text ==> IsSpace(c)
  }

  function Sign(db: Db, sub: string, device: string, plan: string, interval: string, issuer: Issuer,
                account: nat): Jwt {
    Jwt(sub, device, plan, interval, db.now / 1000, db.now / 1000 + JWT_LIFETIME_S, issuer, account)
  }

  function Logged(db: Db, kind: EventKind, account: Option<nat>, device: Option<string>): Db {
    db.(audit := db.audit + [AuditRow(kind, account, device, db.now)])
  }
}
