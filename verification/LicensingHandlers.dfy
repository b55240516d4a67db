/**
 * The licensing endpoints as functions from tables and request to tables and
 * answer, each running alone.  Required request fields are checked first, as at
 * the HTTP entry points; payment checks and remote answers are parameters.
 */
module LicensingHandlers {
  import opened Prelude
  import opened LicensingData

  datatype PaymentCheck = FetchFailed | SignatureInvalid | SignatureValid

  /** The plan bought by a billing interval; unknown intervals buy nothing. */
  function PlanFor(interval: string): Option<string> {
    if interval == "monthly" then Some(MONTHLY_PLAN)
    else if interval == "annual" then Some(ANNUAL_PLAN)
    else None
  }

  /** The count step of the rate gate: attempts for this e-mail logged in the hour before `now`. */
  predicate OverRateLimit(audit: seq<AuditRow>, email: string, now: nat) {
    |Recent(audit, ActivationAttempt(email), now - RATE_LIMIT_WINDOW_MS)| > RATE_LIMIT_MAX_ATTEMPTS
  }

  predicate BoundElsewhere(tokens: seq<Token>, account: nat, device: string) {
    var t := NewestToken(tokens, account);
    t.Some? && tokens[t.value].fingerprint.Some?
    && tokens[t.value].fingerprint != Some("") && tokens[t.value].fingerprint != Some(device)
  }

  function WithAccount(db: Db, email: string): Db {
    if FindAccount(db.accounts, email).Some? then db
    else db.(accounts := db.accounts + [Account(email, false)])
  }

  function FreshToken(db: Db, account: nat, device: string): Token {
    Token(account, Some(device), Some(db.now), db.now, db.now + TOKEN_LIFETIME_MS, None)
  }

  function UpsertToken(db: Db, account: nat, device: string): seq<Token> {
    var bound := FindToken(db.tokens, device);
    if bound.Some? then
      db.tokens[bound.value := db.tokens[bound.value].(
        issuedAt := db.now, expiresAt := db.now + TOKEN_LIFETIME_MS, revokedAt := None)]
    else
      db.tokens + [FreshToken(db, account, device)]
  }

  /** The subscription rows once the account is sure to have one. */
  function WithActive(db: Db, account: nat, interval: string, plan: string): seq<Subscription> {
    if NewestSubscription(db.subscriptions, account).Some? then db.subscriptions
    else db.subscriptions + [Subscription(account, plan, Active, interval, Some(db.now), None, false)]
  }

  /** The writes of an activation that passed every gate, for a known account. */
  function Activated(db: Db, account: nat, email: string, device: string, interval: string, plan: string): Db {
    Logged(db.(subscriptions := WithActive(db, account, interval, plan),
               tokens := UpsertToken(db, account, device),
               issued := db.issued + [Sign(db, email, device, plan, interval, ByActivation, account)]),
           LicenseActivated, Some(account), Some(device))
  }

  /** The tables once an attempt is logged and its account exists. */
  function Admitted(db: Db, email: string): Db {
    WithAccount(Logged(db, ActivationAttempt(email), None, None), email)
  }

  /** The binding gate and, past it, the activation's writes. */
  function Bind(db: Db, email: string, device: string, interval: string, plan: string): (Db, Answer) {
    var known := WithAccount(db, email);
    var account := FindAccount(known.accounts, email).value;
    if BoundElsewhere(known.tokens, account, device) then (known, Err(DeviceAlreadyBound))
    else (Activated(known, account, email, device, interval, plan), Ok(()))
  }

  function Activate(db: Db, email: string, payment: PaymentCheck, device: string, interval: string): (Db, Answer) {
    if email == "" || device == "" || interval == "" then (db, Err(ValidationError))
    else
      var logged := Logged(db, ActivationAttempt(email), None, None);
      if OverRateLimit(logged.audit, email, db.now) then (logged, Err(RateLimited))
      else if payment == FetchFailed then (logged, Err(PaymentUnavailable))
      else if payment == SignatureInvalid then (logged, Err(PaymentVerificationFailed))
      else if PlanFor(interval).None? then (logged, Err(ValidationError))
      else
        Bind(logged, email, device, interval, PlanFor(interval).value)
  }

  /** The four gates of an activation, as a caller could check them beforehand. */
  predicate PassesGates(db: Db, email: string, payment: PaymentCheck, device: string, interval: string) {
    && email != "" && device != "" && interval != ""
    && !OverRateLimit(Logged(db, ActivationAttempt(email), None, None).audit, email, db.now)
    && payment == SignatureValid && PlanFor(interval).Some?
    && var known := Admitted(db, email);
       !BoundElsewhere(known.tokens, FindAccount(known.accounts, email).value, device)
  }

  /** Where an activation can end: refused untouched, refused after logging, or carried out. */
  lemma ActivateEnds(db: Db, email: string, payment: PaymentCheck, device: string, interval: string)
    ensures var (after, answer) := Activate(db, email, payment, device, interval);
            var known := Admitted(db, email);
            var account := FindAccount(known.accounts, email).value;
            if answer.Ok?
            then && device != "" && PlanFor(interval).Some? && !BoundElsewhere(known.tokens, account, device)
                 && after == Activated(known, account, email, device, interval, PlanFor(interval).value)
            else after == db || after == Logged(db, ActivationAttempt(email), None, None) || after == known
    ensures Activate(db, email, payment, device, interval).1.Ok? <==> PassesGates(db, email, payment, device, interval)
  {
  }

  function Unbound(db: Db, token: nat): seq<Token>
    requires token < |db.tokens|
  {
    db.tokens[token := db.tokens[token].(fingerprint := None, boundAt := None, revokedAt := Some(db.now))]
  }

  function Deactivate(db: Db, device: string): (Db, Answer) {
    if device == "" then (db, Err(ValidationError))
    else
      var token := FindToken(db.tokens, device);
      if token.None? then (db, Err(LicenseInvalid))
      else (Logged(db.(tokens := Unbound(db, token.value)),
                   LicenseDeactivated, Some(db.tokens[token.value].account), Some(device)), Ok(()))
  }

  function ResetBinding(db: Db, email: string, reason: string): (Db, Answer) {
    if email == "" || Blank(reason) then (db, Err(ValidationError))
    else
      var account := FindAccount(db.accounts, email);
      if account.None? then (db, Err(NotFound))
      else
        var token := NewestToken(db.tokens, account.value);
        if token.None? then (db, Err(NotFound))
        else (Logged(db.(tokens := Unbound(db, token.value)), BindingReset(reason), account, None), Ok(()))
  }

  /** The token table after a reissue, or None when its unique fingerprint column refuses the write. */
  function Rebound(db: Db, account: nat, device: string): Option<seq<Token>> {
    var holder := FindToken(db.tokens, device);
    var newest := NewestToken(db.tokens, account);
    if holder.Some? && holder != newest then None
    else if newest.Some? then Some(db.tokens[newest.value := FreshToken(db, account, device)])
    else Some(db.tokens + [FreshToken(db, account, device)])
  }

  function Reissued(db: Db, account: nat, email: string, device: string, reason: string, tokens: seq<Token>,
                    s: Subscription): Db {
    Logged(db.(tokens := tokens,
               issued := db.issued + [Sign(db, email, device, s.plan, s.interval, ByReissue, account)]),
           TokenReissued(reason), Some(account), Some(device))
  }

  function Reissue(db: Db, email: string, device: string, reason: string): (Db, Answer) {
    if email == "" || device == "" || Blank(reason) then (db, Err(ValidationError))
    else
      var account := FindAccount(db.accounts, email);
      if account.None? then (db, Err(NotFound))
      else
        var conflicting := FindToken(db.tokens, device);
        var subscription := NewestSubscription(db.subscriptions, account.value);
        if conflicting.Some? && db.tokens[conflicting.value].account != account.value then (db, Err(DeviceAlreadyBound))
        else if subscription.None? || !Refreshable(db.subscriptions[subscription.value].status) then
          (db, Err(LicenseInvalid))
        else
          var tokens := Rebound(db, account.value, device);
          if tokens.None? then (db, Err(ConstraintViolation))
          else
            var s := db.subscriptions[subscription.value];
            (Reissued(db, account.value, email, device, reason, tokens.value, s), Ok(()))
  }

  // ---- Trials ----------------------------------------------------------------------

  function DecideTrialEligibility(trialUsed: bool, boundStatus: Option<Status>, deviceUsed: bool): Decision {
    if boundStatus.Some? && boundStatus.value != Trialing then RecognizedReturningDevice(boundStatus.value)
    else if deviceUsed then BlockedDeviceReused
    else if trialUsed then BlockedEmailReused
    else AllowNewTrial
  }

  /** The status of the newest subscription behind the token bound to this device. */
  function BoundStatus(db: Db, device: string): Option<Status> {
    var token := FindToken(db.tokens, device);
    if token.None? then None
    else
      var s := NewestSubscription(db.subscriptions, db.tokens[token.value].account);
      if s.None? then None else Some(db.subscriptions[s.value].status)
  }

  predicate TrialUsed(db: Db, email: string) {
    var account := FindAccount(db.accounts, email);
    account.Some? && db.accounts[account.value].trialUsed
  }

  function Decide(db: Db, email: string, device: string): Decision {
    DecideTrialEligibility(TrialUsed(db, email), BoundStatus(db, device), DeviceStartedTrial(db.audit, device))
  }

  /** Handing a returning device a token for the subscription it already has. */
  function Recognized(db: Db, email: string, device: string): Db
    requires Decide(db, email, device).RecognizedReturningDevice?
  {
    var account := db.tokens[FindToken(db.tokens, device).value].account;
    var s := db.subscriptions[NewestSubscription(db.subscriptions, account).value];
    db.(issued := db.issued + [Sign(db, email, device, s.plan, s.interval, ByReturningDevice, account)])
  }

  function WithTrialing(db: Db, account: nat): Db {
    db.(subscriptions := db.subscriptions
      + [Subscription(account, MONTHLY_PLAN, Trialing, "monthly", Some(db.now), Some(db.now + TRIAL_MS), false)])
  }

  /** An allowed trial up to the token insert: the account and the trialing row are already written. */
  function TrialOpened(db: Db, email: string): Db {
    var known := WithAccount(db, email);
    WithTrialing(known, FindAccount(known.accounts, email).value)
  }

  /** The writes that follow: the bound token, the used mark, the started event and the licence token. */
  function WithTrialGranted(db: Db, account: nat, email: string, device: string): Db
    requires account < |db.accounts|
  {
    Logged(db.(tokens := db.tokens + [FreshToken(db, account, device)],
               accounts := db.accounts[account := db.accounts[account].(trialUsed := true)],
               issued := db.issued + [Sign(db, email, device, MONTHLY_PLAN, "monthly", ByTrial, account)]),
           TrialStarted, Some(account), Some(device))
  }

  function TrialCompleted(db: Db, email: string, device: string): Db {
    var begun := TrialOpened(db, email);
    WithTrialGranted(begun, FindAccount(begun.accounts, email).value, email, device)
  }

  function StartTrial(db: Db, email: string, device: string): (Db, Answer) {
    if email == "" || device == "" then (db, Err(ValidationError))
    else
      var decision := Decide(db, email, device);
      var guarded := if decision == AllowNewTrial then db else Logged(db, TrialGuard(decision), None, Some(device));
      match decision
      case RecognizedReturningDevice(_) => (RecognizedAfterGuard(db, email, device), Ok(()))
      case BlockedDeviceReused => (guarded, Err(ValidationError))
      case BlockedEmailReused => (guarded, Err(ValidationError))
      case AllowNewTrial =>
        if FindToken(db.tokens, device).Some? then (TrialOpened(db, email), Err(ConstraintViolation))
        else (TrialCompleted(db, email, device), Ok(()))
  }

  /** A completed trial, table by table. */
  lemma TrialCompletedIs(db: Db, email: string, device: string)
    ensures var known := WithAccount(db, email);
            var account := FindAccount(known.accounts, email).value;
            var after := TrialCompleted(db, email, device);
            && after.now == db.now && after.payments == db.payments
            && after.accounts == known.accounts[account := known.accounts[account].(trialUsed := true)]
            && after.subscriptions == db.subscriptions
                 + [Subscription(account, MONTHLY_PLAN, Trialing, "monthly", Some(db.now), Some(db.now + TRIAL_MS),
                                 false)]
            && after.tokens == db.tokens + [FreshToken(db, account, device)]
            && after.audit == db.audit + [AuditRow(TrialStarted, Some(account), Some(device), db.now)]
            && after.issued == db.issued + [Sign(db, email, device, MONTHLY_PLAN, "monthly", ByTrial, account)]
  {
  }

  /** Where a trial request can end: unchanged, refused and logged, recognized, stopped midway, or completed. */
  lemma StartTrialEnds(db: Db, email: string, device: string)
    ensures var (after, answer) := StartTrial(db, email, device);
            if email == "" || device == "" then after == db && answer.Err?
            else match Decide(db, email, device)
                 case RecognizedReturningDevice(_) => after == RecognizedAfterGuard(db, email, device) && answer.Ok?
                 case AllowNewTrial =>
                   if FindToken(db.tokens, device).Some? then after == TrialOpened(db, email) && answer.Err?
                   else after == TrialCompleted(db, email, device) && answer.Ok?
                 case decision => after == Logged(db, TrialGuard(decision), None, Some(device)) && answer.Err?
  {
  }

  function RecognizedAfterGuard(db: Db, email: string, device: string): Db
    requires Decide(db, email, device).RecognizedReturningDevice?
  {
    Logged(Recognized(db, email, device), TrialGuard(Decide(db, email, device)), None, Some(device))
  }

  // ---- Refresh and billing -----------------------------------------------------------

  /** `claims` is the verified token, or None when its signature does not verify. */
  function Refresh(db: Db, claims: Option<Jwt>, device: string): (Db, Answer) {
    if device == "" then (db, Err(ValidationError))
    else if claims.None? then (Logged(db, JwtVerificationFailed, None, Some(device)), Err(InvalidJwt))
    else if claims.value.device != device then (db, Err(DeviceMismatch))
    else if db.now - claims.value.expiresAt * 1000 > MAX_STALENESS_MS then (db, Err(LicenseInvalid))
    else
      var token := FindToken(db.tokens, device);
      if token.None? then (db, Err(LicenseInvalid))
      else
        var account := db.tokens[token.value].account;
        var subscription := NewestSubscription(db.subscriptions, account);
        if subscription.None? || !Refreshable(db.subscriptions[subscription.value].status) then
          (db, Err(LicenseInvalid))
        else
          var s := db.subscriptions[subscription.value];
          var renewed := Sign(db, claims.value.sub, device, s.plan, s.interval, ByRefresh, account);
          (db.(issued := db.issued + [renewed]), Ok(()))
  }

  function Cancel(db: Db, account: nat, atPeriodEnd: Option<bool>): (Db, Answer) {
    var subscription := NewestSubscription(db.subscriptions, account);
    if subscription.None? then (db, Err(NotFound))
    else
      var later := atPeriodEnd.GetOr(true);
      var s := db.subscriptions[subscription.value];
      (Logged(db.(subscriptions := db.subscriptions[subscription.value :=
                s.(cancelAtPeriodEnd := later, status := if later then s.status else Canceled)]),
              SubscriptionCancelled(later), Some(account), None), Ok(()))
  }

  function Reactivate(db: Db, account: nat): (Db, Answer) {
    var subscription := NewestSubscription(db.subscriptions, account);
    if subscription.None? then (db, Err(NotFound))
    else
      var s := db.subscriptions[subscription.value];
      if s.periodEnd.Some? && s.periodEnd.value < db.now then (db, Err(ValidationError))
      else (Logged(db.(subscriptions := db.subscriptions[subscription.value := s.(cancelAtPeriodEnd := false)]),
                   SubscriptionReactivated, Some(account), None), Ok(()))
  }

  /** `refunded` says whether the payment provider accepted the refund. */
  function Refund(db: Db, account: nat, reason: string, refunded: bool): (Db, Answer) {
    if reason == "" then (db, Err(ValidationError))
    else
      var subscription := NewestSubscription(db.subscriptions, account);
      var charge := ChargeOf(db.payments, account);
      if || account >= |db.accounts| || subscription.None?
         || charge.None? || db.payments[charge.value].remotePayment == Some("")
      then (db, Err(NotFound))
      else if !refunded then (db, Err(RefundFailed))
      else (Logged(db.(subscriptions := db.subscriptions[subscription.value :=
                     db.subscriptions[subscription.value].(status := Canceled)]),
                   RefundIssued(reason), Some(account), None), Ok(()))
  }

  // ---- Reconciliation with the payment provider ----------------------------------------

  function LocalStatus(remote: string): Option<Status> {
    if remote == "active" then Some(Active)
    else if remote == "halted" then Some(PastDue)
    else if remote == "cancelled" || remote == "completed" then Some(Canceled)
    else None
  }

  /** Rows the job looks at. */
  predicate Checked(s: Subscription) {
    s.status == Active || s.status == PastDue
  }

  /** What the provider says a row should be, if it has a record that can be fetched and is mapped. */
  function Expected(payments: seq<PaymentRecord>, row: nat, remote: map<string, string>): Option<Status> {
    var record := RecordFor(payments, row);
    if record.None? || payments[record.value].remoteSubscription.None? then None
    else
      var id := payments[record.value].remoteSubscription.value;
      if id == "" || id !in remote then None else LocalStatus(remote[id])
  }

  predicate Drifted(db: Db, row: nat, remote: map<string, string>)
    requires row < |db.subscriptions|
  {
    && Checked(db.subscriptions[row])
    && Expected(db.payments, row, remote).Some?
    && Expected(db.payments, row, remote).value != db.subscriptions[row].status
  }

  /** The tables once the first n subscription rows have been visited. */
  function ReconciledUpTo(db: Db, n: nat, remote: map<string, string>): Db
    requires n <= |db.subscriptions|
    ensures |ReconciledUpTo(db, n, remote).subscriptions| == |db.subscriptions|
  {
    if n == 0 then db
    else
      var earlier := ReconciledUpTo(db, n - 1, remote);
      if !Drifted(db, n - 1, remote) then earlier
      else
        var s := db.subscriptions[n - 1];
        var status := Expected(db.payments, n - 1, remote).value;
        Logged(earlier.(subscriptions := earlier.subscriptions[n - 1 := s.(status := status)]),
               ReconciliationCorrection(n - 1, s.status, status), Some(s.account), None)
  }

  function Reconcile(db: Db, remote: map<string, string>): Db {
    ReconciledUpTo(db, |db.subscriptions|, remote)
  }

  // ---- Webhooks ---------------------------------------------------------------------------

  datatype WebhookKind = SubscriptionCreated | InvoicePaid | PaymentFailed | OtherEvent

  datatype Webhook = Webhook(
    id: string,
    kind: WebhookKind,
    account: Option<nat>,
    remoteSubscription: Option<string>,
    billingEndS: Option<nat>)

  /** The row behind a remote subscription id, through the newest record naming it. */
  function RowOfRemote(db: Db, remote: Option<string>): Option<nat> {
    if remote.None? || remote.value == "" then None
    else
      var record := RecordOfRemote(db.payments, remote.value);
      if record.None? then None
      else
        var row := db.payments[record.value].subscription;
        if row.Some? && row.value < |db.subscriptions| then row else None
  }

  /** The subscription row an event writes, if any. */
  function Target(db: Db, e: Webhook): (row: Option<nat>)
    ensures row.Some? ==> row.value < |db.subscriptions|
  {
    match e.kind
    case SubscriptionCreated =>
      if e.account.Some? && e.account.value < |db.accounts|
      then NewestSubscription(db.subscriptions, e.account.value) else None
    case InvoicePaid => if e.billingEndS.GetOr(0) == 0 then None else RowOfRemote(db, e.remoteSubscription)
    case PaymentFailed => RowOfRemote(db, e.remoteSubscription)
    case OtherEvent => None
  }

  function Written(s: Subscription, e: Webhook): Subscription {
    match e.kind
    case SubscriptionCreated => s.(status := Active)
    case InvoicePaid => s.(status := Active, periodEnd := Some(e.billingEndS.GetOr(0) * 1000))
    case PaymentFailed => s.(status := PastDue)
    case OtherEvent => s
  }

  /** A created subscription for an account that does not exist is refused by its foreign key. */
  predicate Refused(db: Db, e: Webhook) {
    e.kind == SubscriptionCreated && e.account.Some? && e.account.value >= |db.accounts|
  }

  function Dispatched(db: Db, e: Webhook): Db
    requires !Refused(db, e)
  {
    var target := Target(db, e);
    db.(subscriptions :=
          if target.Some? then db.subscriptions[target.value := Written(db.subscriptions[target.value], e)]
          else db.subscriptions,
        payments :=
          if e.kind == SubscriptionCreated && e.account.Some?
          then db.payments + [PaymentRecord(e.account.value, target, e.remoteSubscription, None)] else db.payments)
  }

  function ProcessWebhook(db: Db, e: Webhook): (Db, Answer) {
    if WebhookSeen(db.audit, e.id) then (db, Ok(()))
    else if Refused(db, e) then (db, Err(ConstraintViolation))
    else (Logged(Dispatched(db, e), WebhookProcessed(e.id), None, None), Ok(()))
  }

  // ---- Runs -----------------------------------------------------------------------------

  datatype Op =
    | DoActivate(email: string, payment: PaymentCheck, device: string, interval: string)
    | DoDeactivate(device: string)
    | DoResetBinding(email: string, reason: string)
    | DoReissue(email: string, device: string, reason: string)
    | DoStartTrial(email: string, device: string)
    | DoRefresh(claims: Option<Jwt>, device: string)
    | DoCancel(account: nat, atPeriodEnd: Option<bool>)
    | DoReactivate(account: nat)
    | DoRefund(account: nat, reason: string, refunded: bool)
    | DoReconcile(remote: map<string, string>)
    | DoWebhook(event: Webhook)
    | Wait(ms: nat)

  function Apply(db: Db, op: Op): Db {
    match op
    case DoActivate(email, payment, device, interval) => Activate(db, email, payment, device, interval).0
    case DoDeactivate(device) => Deactivate(db, device).0
    case DoResetBinding(email, reason) => ResetBinding(db, email, reason).0
    case DoReissue(email, device, reason) => Reissue(db, email, device, reason).0
    case DoStartTrial(email, device) => StartTrial(db, email, device).0
    case DoRefresh(claims, device) => Refresh(db, claims, device).0
    case DoCancel(account, atPeriodEnd) => Cancel(db, account, atPeriodEnd).0
    case DoReactivate(account) => Reactivate(db, account).0
    case DoRefund(account, reason, refunded) => Refund(db, account, reason, refunded).0
    case DoReconcile(remote) => Reconcile(db, remote)
    case DoWebhook(event) => ProcessWebhook(db, event).0
    case Wait(ms) => db.(now := db.now + ms)
  }

  function Run(db: Db, ops: seq<Op>): Db {
    if ops == [] then db else Apply(Run(db, ops[..|ops| - 1]), ops[|ops| - 1])
  }

  lemma RunSnoc(db: Db, ops: seq<Op>, op: Op)
    ensures Run(db, ops + [op]) == Apply(Run(db, ops), op)
  {
    assert (ops + [op])[..|ops|] == ops;
  }

  lemma RunTwo(db: Db, first: Op, second: Op)
    ensures Run(db, [first]) == Apply(db, first)
    ensures Run(db, [first, second]) == Apply(Apply(db, first), second)
  {
    RunSnoc(db, [], first);
    RunSnoc(db, [first], second);
    assert [] + [first] == [first] && [first] + [second] == [first, second];
  }
}
