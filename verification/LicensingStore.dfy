/**
 * The licensing database as mutable tables, with each endpoint performing its
 * reads, guards and writes in order.  Every endpoint keeps the invariant of the
 * tables and only appends to the audit log.
 */
module LicensingStore {
  import opened Prelude
  import opened LicensingData
  import opened LicensingHandlers
  import opened LicensingInvariant
  import LicensingSubscriptions

  class Store {
    var now: nat
    var accounts: seq<Account>
    var subscriptions: seq<Subscription>
    var tokens: seq<Token>
    var payments: seq<PaymentRecord>
    var audit: seq<AuditRow>
    var issued: seq<Jwt>

    ghost function Contents(): Db
      reads this
    {
      Db(now, accounts, subscriptions, tokens, payments, audit, issued)
    }

    ghost predicate Valid()
      reads this
    {
      Sane(Contents())
    }

    constructor ()
      ensures Contents() == EMPTY_DB && Valid()
    {
      now, accounts, subscriptions, tokens, payments, audit, issued := 0, [], [], [], [], [], [];
      EmptyIsSane();
    }

    /** The clock the rows are dated by. */
    method Elapse(ms: nat)
      requires Valid()
      modifies this`now
      ensures Valid() && Contents() == Apply(old(Contents()), Wait(ms))
    {
      ApplyKeepsSane(Contents(), Wait(ms));
      now := now + ms;
    }

    method LogAuditEvent(kind: EventKind, account: Option<nat>, device: Option<string>)
      modifies this`audit
      ensures Contents() == Logged(old(Contents()), kind, account, device)
    {
      audit := audit + [AuditRow(kind, account, device, now)];
    }

    method CountRecentEvents(kind: EventKind, windowMs: nat) returns (count: nat)
      ensures count == |Recent(audit, kind, now - windowMs)|
    {
      count := 0;
      var i := 0;
      while i < |audit|
        invariant 0 <= i <= |audit|
        invariant count == |Recent(audit[..i], kind, now - windowMs)|
      {
        RecentSnoc(audit, i, kind, now - windowMs);
        if audit[i].kind == kind && now - windowMs <= audit[i].at {
          count := count + 1;
        }
        i := i + 1;
      }
      assert audit[..i] == audit;
    }

    method SignJwt(sub: string, device: string, plan: string, interval: string, issuer: Issuer, account: nat)
      modifies this`issued
      ensures issued == old(issued) + [Sign(old(Contents()), sub, device, plan, interval, issuer, account)]
    {
      var iat := now / 1000;
      issued := issued + [Jwt(sub, device, plan, interval, iat, iat + JWT_LIFETIME_S, issuer, account)];
    }

    method FindOrCreateAccount(email: string) returns (account: nat)
      modifies this`accounts
      ensures Contents() == WithAccount(old(Contents()), email)
      ensures FindAccount(accounts, email) == Some(account) && account < |accounts|
    {
      var found := FindAccount(accounts, email);
      if found.Some? {
        return found.value;
      }
      account := |accounts|;
      accounts := accounts + [Account(email, false)];
    }

    method UpsertLicenseToken(account: nat, device: string)
      modifies this`tokens
      ensures tokens == UpsertToken(old(Contents()), account, device)
    {
      var bound := FindToken(tokens, device);
      if bound.Some? {
        var t := tokens[bound.value];
        tokens := tokens[bound.value := t.(issuedAt := now, expiresAt := now + TOKEN_LIFETIME_MS, revokedAt := None)];
      } else {
        tokens := tokens + [Token(account, Some(device), Some(now), now, now + TOKEN_LIFETIME_MS, None)];
      }
    }

    method EnsureSubscription(account: nat, interval: string, plan: string)
      modifies this`subscriptions
      ensures subscriptions == WithActive(old(Contents()), account, interval, plan)
    {
      if NewestSubscription(subscriptions, account).None? {
        subscriptions := subscriptions + [Subscription(account, plan, Active, interval, Some(now), None, false)];
      }
    }

    /** The writes of an activation that passed every gate. */
    method IssueLicense(account: nat, email: string, device: string, interval: string, plan: string)
      modifies this
      ensures Contents() == Activated(old(Contents()), account, email, device, interval, plan)
    {
      EnsureSubscription(account, interval, plan);
      UpsertLicenseToken(account, device);
      SignJwt(email, device, plan, interval, ByActivation, account);
      LogAuditEvent(LicenseActivated, Some(account), Some(device));
    }

    method BindLicense(email: string, device: string, interval: string, plan: string) returns (answer: Answer)
      modifies this
      ensures (Contents(), answer) == Bind(old(Contents()), email, device, interval, plan)
    {
      var account := FindOrCreateAccount(email);
      if BoundElsewhere(tokens, account, device) {
        return Err(DeviceAlreadyBound);
      }
      IssueLicense(account, email, device, interval, plan);
      answer := Ok(());
    }

    method ActivateLicense(email: string, payment: PaymentCheck, device: string, interval: string)
      returns (answer: Answer)
      requires Valid()
      modifies this
      ensures Valid() && old(audit) <= audit
      ensures (Contents(), answer) == Activate(old(Contents()), email, payment, device, interval)
      ensures answer.Ok? <==> old(PassesGates(Contents(), email, payment, device, interval))
      ensures answer.Ok? ==> RenewedFor(Contents(), device)
    {
      ActivateEnds(Contents(), email, payment, device, interval);
      ActivateBinds(Contents(), email, payment, device, interval);
      ApplyKeepsSane(Contents(), DoActivate(email, payment, device, interval));
      if email == "" || device == "" || interval == "" {
        return Err(ValidationError);
      }
      LogAuditEvent(ActivationAttempt(email), None, None);
      var attempts := CountRecentEvents(ActivationAttempt(email), RATE_LIMIT_WINDOW_MS);
      if attempts > RATE_LIMIT_MAX_ATTEMPTS {
        return Err(RateLimited);
      }
      if payment == FetchFailed {
        return Err(PaymentUnavailable);
      }
      if payment == SignatureInvalid {
        return Err(PaymentVerificationFailed);
      }
      var plan := PlanFor(interval);
      if plan.None? {
        return Err(ValidationError);
      }
      answer := BindLicense(email, device, interval, plan.value);
    }

    method UnbindToken(token: nat)
      requires token < |tokens|
      modifies this`tokens
      ensures tokens == Unbound(old(Contents()), token)
    {
      tokens := tokens[token := tokens[token].(fingerprint := None, revokedAt := Some(now), boundAt := None)];
    }

    method DeactivateLicense(device: string) returns (answer: Answer)
      requires Valid()
      modifies this
      ensures Valid() && old(audit) <= audit
      ensures (Contents(), answer) == Deactivate(old(Contents()), device)
      ensures answer.Ok? <==> device != "" && FindToken(old(tokens), device).Some?
      ensures answer.Ok? ==> FindToken(tokens, device).None?
    {
      DeactivateReleases(Contents(), device);
      ApplyKeepsSane(Contents(), DoDeactivate(device));
      if device == "" {
        return Err(ValidationError);
      }
      var token := FindToken(tokens, device);
      if token.None? {
        return Err(LicenseInvalid);
      }
      var account := tokens[token.value].account;
      UnbindToken(token.value);
      LogAuditEvent(LicenseDeactivated, Some(account), Some(device));
      answer := Ok(());
    }

    method ResetDeviceBinding(email: string, reason: string) returns (answer: Answer)
      requires Valid()
      modifies this
      ensures Valid() && old(audit) <= audit
      ensures (Contents(), answer) == ResetBinding(old(Contents()), email, reason)
      ensures answer.Ok? ==>
                var account := FindAccount(accounts, email);
                && account.Some? && NewestToken(tokens, account.value).Some?
                && tokens[NewestToken(tokens, account.value).value].fingerprint.None?
    {
      ResetReleases(Contents(), email, reason);
      ApplyKeepsSane(Contents(), DoResetBinding(email, reason));
      if email == "" || Blank(reason) {
        return Err(ValidationError);
      }
      var account := FindAccount(accounts, email);
      if account.None? {
        return Err(NotFound);
      }
      var token := NewestToken(tokens, account.value);
      if token.None? {
        return Err(NotFound);
      }
      UnbindToken(token.value);
      LogAuditEvent(BindingReset(reason), account, None);
      answer := Ok(());
    }

    /** Rebinds the account's newest row, or creates one, unless another row holds the unique fingerprint. */
    method RebindToken(account: nat, device: string) returns (refused: bool)
      modifies this`tokens
      ensures refused <==> Rebound(old(Contents()), account, device).None?
      ensures tokens == if refused then old(tokens) else Rebound(old(Contents()), account, device).value
    {
      var holder := FindToken(tokens, device);
      var existing := NewestToken(tokens, account);
      if holder.Some? && holder != existing {
        return true;
      }
      var row := Token(account, Some(device), Some(now), now, now + TOKEN_LIFETIME_MS, None);
      if existing.Some? {
        tokens := tokens[existing.value := row];
      } else {
        tokens := tokens + [row];
      }
      refused := false;
    }

    /** The writes of a reissue that passed its guards. */
    method MintToken(account: nat, email: string, device: string, reason: string, s: Subscription)
      returns (answer: Answer)
      modifies this
      ensures (Contents(), answer) ==
              var tokens := Rebound(old(Contents()), account, device);
              if tokens.None? then (old(Contents()), Err(ConstraintViolation))
              else (Reissued(old(Contents()), account, email, device, reason, tokens.value, s), Ok(()))
    {
      var refused := RebindToken(account, device);
      if refused {
        return Err(ConstraintViolation);
      }
      SignJwt(email, device, s.plan, s.interval, ByReissue, account);
      LogAuditEvent(TokenReissued(reason), Some(account), Some(device));
      answer := Ok(());
    }

    method ReissueToken(email: string, device: string, reason: string) returns (answer: Answer)
      requires Valid()
      modifies this
      ensures Valid() && old(audit) <= audit
      ensures (Contents(), answer) == Reissue(old(Contents()), email, device, reason)
      ensures answer.Ok? ==>
                var account := FindAccount(accounts, email);
                && account.Some? && BoundTo(Contents(), device, account.value)
                && FindToken(tokens, device) == NewestToken(tokens, account.value)
    {
      ReissueBinds(Contents(), email, device, reason);
      ApplyKeepsSane(Contents(), DoReissue(email, device, reason));
      if email == "" || device == "" || Blank(reason) {
        return Err(ValidationError);
      }
      var account := FindAccount(accounts, email);
      if account.None? {
        return Err(NotFound);
      }
      var conflicting := FindToken(tokens, device);
      if conflicting.Some? && tokens[conflicting.value].account != account.value {
        return Err(DeviceAlreadyBound);
      }
      var subscription := NewestSubscription(subscriptions, account.value);
      if subscription.None? || !Refreshable(subscriptions[subscription.value].status) {
        return Err(LicenseInvalid);
      }
      answer := MintToken(account.value, email, device, reason, subscriptions[subscription.value]);
    }

    /** Gathers the three facts the eligibility policy is applied to. */
    method GatherDecision(email: string, device: string) returns (decision: Decision)
      ensures decision == Decide(Contents(), email, device)
    {
      var binding := FindToken(tokens, device);
      var boundStatus: Option<Status> := None;
      if binding.Some? {
        var boundSub := NewestSubscription(subscriptions, tokens[binding.value].account);
        if boundSub.Some? {
          boundStatus := Some(subscriptions[boundSub.value].status);
        }
      }
      var found := FindAccount(accounts, email);
      var trialUsed := found.Some? && accounts[found.value].trialUsed;
      decision := DecideTrialEligibility(trialUsed, boundStatus, DeviceStartedTrial(audit, device));
    }

    method InsertTrialing(account: nat)
      modifies this`subscriptions
      ensures Contents() == WithTrialing(old(Contents()), account)
    {
      subscriptions := subscriptions
        + [Subscription(account, MONTHLY_PLAN, Trialing, "monthly", Some(now), Some(now + TRIAL_MS), false)];
    }

    method GrantTrial(account: nat, email: string, device: string)
      requires account < |accounts|
      modifies this
      ensures Contents() == WithTrialGranted(old(Contents()), account, email, device)
    {
      tokens := tokens + [Token(account, Some(device), Some(now), now, now + TOKEN_LIFETIME_MS, None)];
      accounts := accounts[account := accounts[account].(trialUsed := true)];
      LogAuditEvent(TrialStarted, Some(account), Some(device));
      SignJwt(email, device, MONTHLY_PLAN, "monthly", ByTrial, account);
    }

    method CompleteTrial(email: string, device: string) returns (answer: Answer)
      modifies this
      ensures (Contents(), answer) ==
              if FindToken(old(tokens), device).Some?
              then (TrialOpened(old(Contents()), email), Err(ConstraintViolation))
              else (TrialCompleted(old(Contents()), email, device), Ok(()))
    {
      var taken := FindToken(tokens, device).Some?;
      var account := FindOrCreateAccount(email);
      InsertTrialing(account);
      if taken {
        return Err(ConstraintViolation);
      }
      GrantTrial(account, email, device);
      answer := Ok(());
    }

    method RecognizeDevice(email: string, device: string)
      requires Decide(Contents(), email, device).RecognizedReturningDevice?
      modifies this`issued
      ensures Contents() == Recognized(old(Contents()), email, device)
    {
      var owner := tokens[FindToken(tokens, device).value].account;
      var s := subscriptions[NewestSubscription(subscriptions, owner).value];
      SignJwt(email, device, s.plan, s.interval, ByReturningDevice, owner);
    }

    method BeginTrial(email: string, device: string) returns (answer: Answer)
      requires Valid()
      modifies this
      ensures Valid() && old(audit) <= audit
      ensures (Contents(), answer) == StartTrial(old(Contents()), email, device)
      ensures answer.Ok? <==> old(LicensingSubscriptions.TrialToken(Contents(), email, device)).Some?
      ensures answer.Ok? ==>
                && FindToken(tokens, device).Some?
                && issued == old(issued) + [old(LicensingSubscriptions.TrialToken(Contents(), email, device)).value]
    {
      LicensingSubscriptions.StartTrialIssuesOne(Contents(), email, device);
      StartTrialBinds(Contents(), email, device);
      ApplyKeepsSane(Contents(), DoStartTrial(email, device));
      if email == "" || device == "" {
        return Err(ValidationError);
      }
      var decision := GatherDecision(email, device);
      if decision == AllowNewTrial {
        answer := CompleteTrial(email, device);
        return;
      }
      LogAuditEvent(TrialGuard(decision), None, Some(device));
      if decision.RecognizedReturningDevice? {
        RecognizeDevice(email, device);
        return Ok(());
      }
      answer := Err(ValidationError);
    }

    method RefreshLicenseToken(claims: Option<Jwt>, device: string) returns (answer: Answer)
      requires Valid()
      modifies this
      ensures Valid() && old(audit) <= audit
      ensures (Contents(), answer) == Refresh(old(Contents()), claims, device)
      ensures answer.Ok? ==>
                && claims.Some? && claims.value.device == device && FindToken(tokens, device).Some?
                && |issued| == |old(issued)| + 1
    {
      ApplyKeepsSane(Contents(), DoRefresh(claims, device));
      if device == "" {
        return Err(ValidationError);
      }
      if claims.None? {
        LogAuditEvent(JwtVerificationFailed, None, Some(device));
        return Err(InvalidJwt);
      }
      if claims.value.device != device {
        return Err(DeviceMismatch);
      }
      var staleness := now - claims.value.expiresAt * 1000;
      if staleness > MAX_STALENESS_MS {
        return Err(LicenseInvalid);
      }
      var token := FindToken(tokens, device);
      if token.None? {
        return Err(LicenseInvalid);
      }
      var account := tokens[token.value].account;
      var subscription := NewestSubscription(subscriptions, account);
      if subscription.None? || !Refreshable(subscriptions[subscription.value].status) {
        return Err(LicenseInvalid);
      }
      var s := subscriptions[subscription.value];
      SignJwt(claims.value.sub, device, s.plan, s.interval, ByRefresh, account);
      answer := Ok(());
    }

    method CancelSubscription(account: nat, atPeriodEnd: Option<bool>) returns (answer: Answer)
      requires Valid()
      modifies this
      ensures Valid() && old(audit) <= audit
      ensures (Contents(), answer) == Cancel(old(Contents()), account, atPeriodEnd)
      ensures answer.Ok? <==> NewestSubscription(old(subscriptions), account).Some?
      ensures answer.Ok? && atPeriodEnd == Some(false) ==>
                var row := NewestSubscription(old(subscriptions), account);
                LicensingSubscriptions.CutOff(Contents(), account, row.value)
    {
      CancelCutsOff(Contents(), account, atPeriodEnd);
      ApplyKeepsSane(Contents(), DoCancel(account, atPeriodEnd));
      var subscription := NewestSubscription(subscriptions, account);
      if subscription.None? {
        return Err(NotFound);
      }
      var later := atPeriodEnd.GetOr(true);
      var s := subscriptions[subscription.value];
      subscriptions := subscriptions[subscription.value :=
        s.(cancelAtPeriodEnd := later, status := if later then s.status else Canceled)];
      LogAuditEvent(SubscriptionCancelled(later), Some(account), None);
      answer := Ok(());
    }

    method ReactivateSubscription(account: nat) returns (answer: Answer)
      requires Valid()
      modifies this
      ensures Valid() && old(audit) <= audit
      ensures (Contents(), answer) == Reactivate(old(Contents()), account)
      ensures var row := NewestSubscription(old(subscriptions), account);
              answer.Ok? <==> row.Some? && !LicensingSubscriptions.PeriodOver(old(subscriptions)[row.value], now)
      ensures |subscriptions| == |old(subscriptions)|
              && forall i :: 0 <= i < |subscriptions| ==> subscriptions[i].status == old(subscriptions)[i].status
    {
      ApplyKeepsSane(Contents(), DoReactivate(account));
      var subscription := NewestSubscription(subscriptions, account);
      if subscription.None? {
        return Err(NotFound);
      }
      var s := subscriptions[subscription.value];
      if s.periodEnd.Some? && s.periodEnd.value < now {
        return Err(ValidationError);
      }
      subscriptions := subscriptions[subscription.value := s.(cancelAtPeriodEnd := false)];
      LogAuditEvent(SubscriptionReactivated, Some(account), None);
      answer := Ok(());
    }

    method RefundAccount(account: nat, reason: string, refunded: bool) returns (answer: Answer)
      requires Valid()
      modifies this
      ensures Valid() && old(audit) <= audit
      ensures (Contents(), answer) == Refund(old(Contents()), account, reason, refunded)
      ensures answer.Ok? ==>
                var row := NewestSubscription(old(subscriptions), account);
                refunded && row.Some? && LicensingSubscriptions.CutOff(Contents(), account, row.value)
    {
      RefundCutsOff(Contents(), account, reason, refunded);
      ApplyKeepsSane(Contents(), DoRefund(account, reason, refunded));
      if reason == "" {
        return Err(ValidationError);
      }
      if account >= |accounts| {
        return Err(NotFound);
      }
      var subscription := NewestSubscription(subscriptions, account);
      if subscription.None? {
        return Err(NotFound);
      }
      var charge := ChargeOf(payments, account);
      if charge.None? || payments[charge.value].remotePayment == Some("") {
        return Err(NotFound);
      }
      if !refunded {
        return Err(RefundFailed);
      }
      subscriptions := subscriptions[subscription.value := subscriptions[subscription.value].(status := Canceled)];
      LogAuditEvent(RefundIssued(reason), Some(account), None);
      answer := Ok(());
    }

    /** Walks a snapshot of the active and past-due rows, as the job's query returned it. */
    method RunBillingReconciliation(remote: map<string, string>) returns (checked: nat, drifted: nat, corrected: nat)
      requires Valid()
      modifies this`subscriptions, this`audit
      ensures Valid() && old(audit) <= audit
      ensures Contents() == Reconcile(old(Contents()), remote)
      ensures checked == LicensingSubscriptions.CheckedCount(old(Contents()), |old(subscriptions)|)
      ensures drifted == corrected <= checked
      ensures |audit| == |old(audit)| + corrected
      ensures forall i :: 0 <= i < |subscriptions| ==> !Drifted(Contents(), i, remote)
    {
      ReconcileSettles(Contents(), remote);
      ApplyKeepsSane(Contents(), DoReconcile(remote));
      ghost var before := Contents();
      var snapshot := subscriptions;
      checked, drifted, corrected := 0, 0, 0;
      var i := 0;
      while i < |snapshot|
        invariant 0 <= i <= |snapshot| == |before.subscriptions| && snapshot == before.subscriptions
        invariant Contents() == ReconciledUpTo(before, i, remote)
        invariant payments == before.payments && now == before.now
        invariant checked == LicensingSubscriptions.CheckedCount(before, i)
        invariant drifted == corrected <= checked
        invariant |audit| == |before.audit| + corrected
      {
        var s := snapshot[i];
        i := i + 1;
        if s.status != Active && s.status != PastDue {
          continue;
        }
        checked := checked + 1;
        var record := RecordFor(payments, i - 1);
        if record.None? || payments[record.value].remoteSubscription.None? {
          continue;
        }
        var id := payments[record.value].remoteSubscription.value;
        if id == "" || id !in remote {
          continue;
        }
        var expected := LocalStatus(remote[id]);
        if expected.None? || expected.value == s.status {
          continue;
        }
        drifted := drifted + 1;
        subscriptions := subscriptions[i - 1 := s.(status := expected.value)];
        LogAuditEvent(ReconciliationCorrection(i - 1, s.status, expected.value), Some(s.account), None);
        corrected := corrected + 1;
      }
    }

    method RowBehind(remote: Option<string>) returns (row: Option<nat>)
      ensures row == RowOfRemote(Contents(), remote)
      ensures row.Some? ==> row.value < |subscriptions|
    {
      if remote.None? || remote.value == "" {
        return None;
      }
      var record := RecordOfRemote(payments, remote.value);
      if record.None? {
        return None;
      }
      row := payments[record.value].subscription;
      if row.Some? && row.value >= |subscriptions| {
        row := None;
      }
    }

    method OnSubscriptionCreated(e: Webhook)
      requires e.kind == SubscriptionCreated && !Refused(Contents(), e)
      modifies this`subscriptions, this`payments
      ensures Contents() == Dispatched(old(Contents()), e)
    {
      if e.account.None? {
        return;
      }
      var existing := NewestSubscription(subscriptions, e.account.value);
      if existing.Some? {
        subscriptions := subscriptions[existing.value := subscriptions[existing.value].(status := Active)];
      }
      payments := payments + [PaymentRecord(e.account.value, existing, e.remoteSubscription, None)];
    }

    method OnInvoicePaid(e: Webhook)
      requires e.kind == InvoicePaid
      modifies this`subscriptions
      ensures Contents() == Dispatched(old(Contents()), e)
    {
      if e.billingEndS.GetOr(0) == 0 {
        return;
      }
      var row := RowBehind(e.remoteSubscription);
      if row.Some? {
        subscriptions := subscriptions[row.value :=
          subscriptions[row.value].(status := Active, periodEnd := Some(e.billingEndS.value * 1000))];
      }
    }

    method OnPaymentFailed(e: Webhook)
      requires e.kind == PaymentFailed
      modifies this`subscriptions
      ensures Contents() == Dispatched(old(Contents()), e)
    {
      var row := RowBehind(e.remoteSubscription);
      if row.Some? {
        subscriptions := subscriptions[row.value := subscriptions[row.value].(status := PastDue)];
      }
    }

    method ProcessWebhookEvent(e: Webhook) returns (answer: Answer)
      requires Valid()
      modifies this
      ensures Valid() && old(audit) <= audit
      ensures (Contents(), answer) == ProcessWebhook(old(Contents()), e)
      ensures answer.Ok? ==> WebhookSeen(audit, e.id)
    {
      ProcessedIsSeen(Contents(), e);
      ApplyKeepsSane(Contents(), DoWebhook(e));
      if WebhookSeen(audit, e.id) {
        return Ok(());
      }
      if e.kind == SubscriptionCreated && e.account.Some? && e.account.value >= |accounts| {
        return Err(ConstraintViolation);
      }
      match e.kind {
        case SubscriptionCreated => OnSubscriptionCreated(e);
        case InvoicePaid => OnInvoicePaid(e);
        case PaymentFailed => OnPaymentFailed(e);
        case OtherEvent =>
      }
      LogAuditEvent(WebhookProcessed(e.id), None, None);
      answer := Ok(());
    }
  }
}
