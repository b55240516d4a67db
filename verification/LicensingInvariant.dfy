/** Everything the licensing tables keep at once, and what each successful request guarantees. */
module LicensingInvariant {
  import opened Prelude
  import opened LicensingData
  import opened LicensingHandlers
  import LicensingTokens
  import LicensingTrials
  import LicensingSubscriptions

  /** What the tables keep, aspect by aspect. */
  datatype Aspect = DevicesBoundOnce | TrialsOneToOne | TokensDated | HoldersSubscribed

  ghost predicate Holds(db: Db, aspect: Aspect) {
    match aspect
    case DevicesBoundOnce => LicensingTokens.Sound(db)
    case TrialsOneToOne => LicensingTrials.Inv(db)
    case TokensDated => LicensingSubscriptions.Dated(db)
    case HoldersSubscribed => LicensingSubscriptions.TokensSubscribed(db)
  }

  ghost predicate Sane(db: Db) {
    forall aspect :: Holds(db, aspect)
  }

  lemma EmptyIsSane()
    ensures Sane(EMPTY_DB)
  {
  }

  lemma AuditGrows(db: Db, op: Op)
    ensures db.audit <= Apply(db, op).audit
  {
    if op.DoStartTrial? {
      StartTrialEnds(db, op.email, op.device);
      TrialCompletedIs(db, op.email, op.device);
      assert TrialOpened(db, op.email).audit == db.audit;
    } else {
      LicensingTrials.OthersStartNoTrial(db, op);
    }
  }

  /** Every request keeps all of it, and the audit log is only ever appended to. */
  lemma {:induction false} ApplyKeepsSane(db: Db, op: Op)
    requires Sane(db)
    ensures Sane(Apply(db, op)) && db.audit <= Apply(db, op).audit
  {
    forall aspect ensures Holds(Apply(db, op), aspect) {
      assert Holds(db, aspect);
      match aspect {
        case DevicesBoundOnce => LicensingTokens.ApplyKeepsTokens(db, op);
        case TrialsOneToOne => LicensingTrials.ApplyKeepsInv(db, op);
        case TokensDated => LicensingSubscriptions.ApplyKeepsDated(db, op);
        case HoldersSubscribed => LicensingSubscriptions.ApplyKeepsSubscribed(db, op);
      }
    }
    AuditGrows(db, op);
  }

  /** In every reachable state of the tables all of it holds. */
  lemma {:induction false} RunKeepsSane(ops: seq<Op>)
    ensures Sane(Run(EMPTY_DB, ops))
  {
    if ops != [] {
      RunKeepsSane(ops[..|ops| - 1]);
      ApplyKeepsSane(Run(EMPTY_DB, ops[..|ops| - 1]), ops[|ops| - 1]);
    }
  }

  /** The row bound to a device is this account's and not revoked. */
  predicate BoundTo(db: Db, device: string, account: nat) {
    var t := FindToken(db.tokens, device);
    && t.Some?
    && db.tokens[t.value].account == account
    && db.tokens[t.value].revokedAt.None?
  }

  /** The device is bound by a row that is not revoked and lives two days from now. */
  predicate RenewedFor(db: Db, device: string) {
    var t := FindToken(db.tokens, device);
    && t.Some?
    && db.tokens[t.value].revokedAt.None?
    && db.tokens[t.value].expiresAt == db.now + TOKEN_LIFETIME_MS
  }

  // ---- What a successful request guarantees ---------------------------------------------

  lemma FreshIsFound(tokens: seq<Token>, db: Db, account: nat, device: string)
    ensures FindToken(tokens + [FreshToken(db, account, device)], device) == Some(|tokens|)
  {
    var all := tokens + [FreshToken(db, account, device)];
    assert all[|tokens|].fingerprint == Some(device);
  }

  lemma UpsertBinds(db: Db, account: nat, device: string)
    requires LicensingTokens.UniqueFingerprints(db.tokens)
    ensures var tokens := UpsertToken(db, account, device);
            RenewedFor(db.(tokens := tokens), device)
  {
    var bound := FindToken(db.tokens, device);
    if bound.Some? {
      var tokens := UpsertToken(db, account, device);
      assert tokens[bound.value].fingerprint == Some(device);
      assert forall i :: 0 <= i < |tokens| ==> tokens[i].fingerprint == db.tokens[i].fingerprint;
    } else {
      FreshIsFound(db.tokens, db, account, device);
    }
  }

  /** A passed activation leaves the device bound, unrevoked and renewed for 48 hours. */
  lemma ActivateBinds(db: Db, email: string, payment: PaymentCheck, device: string, interval: string)
    requires Sane(db)
    ensures var (after, answer) := Activate(db, email, payment, device, interval);
            answer.Ok? ==> RenewedFor(after, device)
  {
    assert Holds(db, DevicesBoundOnce);
    ActivateEnds(db, email, payment, device, interval);
    var known := Admitted(db, email);
    assert known.tokens == db.tokens && known.now == db.now;
    UpsertBinds(known, FindAccount(known.accounts, email).value, device);
  }

  lemma UpsertKeepsOwner(db: Db, account: nat, device: string)
    requires LicensingTokens.SoundTokens(db.tokens) && FindToken(db.tokens, device).Some?
    ensures BoundTo(db.(tokens := UpsertToken(db, account, device)), device,
                    db.tokens[FindToken(db.tokens, device).value].account)
  {
    var holder := FindToken(db.tokens, device);
    var tokens := UpsertToken(db, account, device);
    assert forall i :: 0 <= i < |tokens| ==> tokens[i].fingerprint == db.tokens[i].fingerprint;
    assert tokens[holder.value].account == db.tokens[holder.value].account;
    assert FindToken(tokens, device) == holder;
  }

  lemma UpsertOwner(db: Db, account: nat, device: string)
    requires LicensingTokens.SoundTokens(db.tokens)
    ensures BoundTo(db.(tokens := UpsertToken(db, account, device)), device, account) <==>
              var holder := FindToken(db.tokens, device);
              holder.None? || db.tokens[holder.value].account == account
  {
    if FindToken(db.tokens, device).Some? {
      UpsertKeepsOwner(db, account, device);
    } else {
      FreshIsFound(db.tokens, db, account, device);
    }
  }

  /**
   * A passed activation binds the device to the paying account exactly when no row
   * held the device, or the row that held it was already this account's; otherwise
   * the device stays bound to the other account.
   */
  lemma {:induction false} ActivationBindsPayerExactlyWhen(db: Db, email: string, payment: PaymentCheck,
                                                           device: string, interval: string)
    requires Sane(db) && PassesGates(db, email, payment, device, interval)
    ensures var after := Activate(db, email, payment, device, interval).0;
            var account := FindAccount(after.accounts, email);
            var holder := FindToken(db.tokens, device);
            && account.Some?
            && (BoundTo(after, device, account.value) <==>
                  holder.None? || db.tokens[holder.value].account == account.value)
            && (holder.Some? ==> BoundTo(after, device, db.tokens[holder.value].account))
  {
    assert Holds(db, DevicesBoundOnce);
    ActivateEnds(db, email, payment, device, interval);
    var known := Admitted(db, email);
    assert known.tokens == db.tokens && known.now == db.now;
    var account := FindAccount(known.accounts, email).value;
    UpsertOwner(known, account, device);
    if FindToken(db.tokens, device).Some? {
      UpsertKeepsOwner(known, account, device);
    }
  }

  /** An activation of a second e-mail on a device that a first one holds passes every gate. */
  lemma SecondPayerPasses(db: Db, first: string, second: string, device: string)
    requires first != "" && second != "" && first != second && device != ""
    requires db.accounts == [Account(first, false)] && db.tokens == [FreshToken(EMPTY_DB, 0, device)]
    requires |db.audit| == 2
    ensures PassesGates(db, second, SignatureValid, device, "monthly")
    ensures FindAccount(Admitted(db, second).accounts, second) == Some(1)
  {
    var logged := Logged(db, ActivationAttempt(second), None, None);
    RecentIsSmall(logged.audit, ActivationAttempt(second), db.now - RATE_LIMIT_WINDOW_MS);
    assert Admitted(db, second).accounts == [Account(first, false), Account(second, false)];
    assert NewestToken(db.tokens, 1) == None;
  }

  /** From nothing: two people activate on one device; both are answered with success, and it stays the first one's. */
  lemma {:induction false} SecondPayerIsUnbound(first: string, second: string, device: string)
    requires first != "" && second != "" && first != second && device != ""
    ensures var one := DoActivate(first, SignatureValid, device, "monthly");
            var two := DoActivate(second, SignatureValid, device, "monthly");
            && PassesGates(Run(EMPTY_DB, [one]), second, SignatureValid, device, "monthly")
            && BoundTo(Run(EMPTY_DB, [one, two]), device, 0)
            && FindAccount(Run(EMPTY_DB, [one, two]).accounts, second) == Some(1)
  {
    var one := DoActivate(first, SignatureValid, device, "monthly");
    var two := DoActivate(second, SignatureValid, device, "monthly");
    RunTwo(EMPTY_DB, one, two);
    RunKeepsSane([one]);
    LicensingTokens.FirstActivation(first, device);
    SecondPayer(Apply(EMPTY_DB, one), first, second, device);
  }

  lemma SecondPayer(db: Db, first: string, second: string, device: string)
    requires Sane(db) && first != "" && second != "" && first != second && device != ""
    requires db.accounts == [Account(first, false)] && db.tokens == [FreshToken(EMPTY_DB, 0, device)]
    requires |db.audit| == 2
    ensures PassesGates(db, second, SignatureValid, device, "monthly")
    ensures var after := Activate(db, second, SignatureValid, device, "monthly").0;
            BoundTo(after, device, 0) && FindAccount(after.accounts, second) == Some(1)
  {
    SecondPayerPasses(db, first, second, device);
    ActivationBindsPayerExactlyWhen(db, second, SignatureValid, device, "monthly");
    ActivateEnds(db, second, SignatureValid, device, "monthly");
    assert FindToken(db.tokens, device) == Some(0);
  }

  /** After a deactivation no row is bound to the device. */
  lemma DeactivateReleases(db: Db, device: string)
    requires Sane(db)
    ensures var (after, answer) := Deactivate(db, device);
            answer.Ok? ==> FindToken(after.tokens, device).None?
  {
    assert Holds(db, DevicesBoundOnce);
    if FindToken(db.tokens, device).Some? {
      LicensingTokens.UnboundForgets(db, device);
    }
  }

  /** A reissue leaves the device bound to the account, by its newest row. */
  lemma ReissueBinds(db: Db, email: string, device: string, reason: string)
    ensures var (after, answer) := Reissue(db, email, device, reason);
            var account := FindAccount(db.accounts, email);
            answer.Ok? ==>
            && account.Some? && after.accounts == db.accounts && BoundTo(after, device, account.value)
            && FindToken(after.tokens, device) == NewestToken(after.tokens, account.value)
  {
    var (after, answer) := Reissue(db, email, device, reason);
    if answer.Err? {
      return;
    }
    var account := FindAccount(db.accounts, email).value;
    var newest := NewestToken(db.tokens, account);
    if newest.Some? {
      assert after.tokens == db.tokens[newest.value := FreshToken(db, account, device)];
      assert after.tokens[newest.value].fingerprint == Some(device);
      assert forall i :: 0 <= i < |db.tokens| && i != newest.value ==> after.tokens[i] == db.tokens[i];
    } else {
      FreshIsFound(db.tokens, db, account, device);
    }
  }

  /** A trial request that succeeds leaves its device bound: newly, or as it was recognized. */
  lemma StartTrialBinds(db: Db, email: string, device: string)
    ensures var (after, answer) := StartTrial(db, email, device);
            answer.Ok? ==> FindToken(after.tokens, device).Some?
  {
    StartTrialEnds(db, email, device);
    TrialCompletedIs(db, email, device);
    if Decide(db, email, device) == AllowNewTrial {
      FreshIsFound(db.tokens, db, FindAccount(WithAccount(db, email).accounts, email).value, device);
    }
  }

  /** After a reset the account's newest row is unbound, so no device holds it. */
  lemma ResetReleases(db: Db, email: string, reason: string)
    ensures var (after, answer) := ResetBinding(db, email, reason);
            var account := FindAccount(db.accounts, email);
            answer.Ok? ==>
            && account.Some? && after.accounts == db.accounts
            && NewestToken(after.tokens, account.value) == NewestToken(db.tokens, account.value)
            && NewestToken(after.tokens, account.value).Some?
            && after.tokens[NewestToken(after.tokens, account.value).value].fingerprint.None?
  {
    var (after, answer) := ResetBinding(db, email, reason);
    if answer.Err? {
      return;
    }
    var account := FindAccount(db.accounts, email).value;
    var t := NewestToken(db.tokens, account).value;
    assert after.tokens[t].account == account;
    assert forall i :: 0 <= i < |db.tokens| && i != t ==> after.tokens[i] == db.tokens[i];
  }

  lemma CancelCutsOff(db: Db, account: nat, atPeriodEnd: Option<bool>)
    ensures var (after, answer) := Cancel(db, account, atPeriodEnd);
            answer.Ok? && atPeriodEnd == Some(false) ==>
              LicensingSubscriptions.CutOff(after, account, NewestSubscription(db.subscriptions, account).value)
  {
    if Cancel(db, account, atPeriodEnd).1.Ok? && atPeriodEnd == Some(false) {
      LicensingSubscriptions.ImmediateEndCutsOff(db, account, DoCancel(account, atPeriodEnd));
    }
  }

  lemma RefundCutsOff(db: Db, account: nat, reason: string, refunded: bool)
    ensures var (after, answer) := Refund(db, account, reason, refunded);
            answer.Ok? ==>
              LicensingSubscriptions.CutOff(after, account, NewestSubscription(db.subscriptions, account).value)
  {
    if Refund(db, account, reason, refunded).1.Ok? {
      LicensingSubscriptions.ImmediateEndCutsOff(db, account, DoRefund(account, reason, refunded));
    }
  }

  lemma {:induction false} ReconcileSettles(db: Db, remote: map<string, string>)
    ensures var after := Reconcile(db, remote);
            && |after.subscriptions| == |db.subscriptions|
            && forall i :: 0 <= i < |after.subscriptions| ==> !Drifted(after, i, remote)
  {
    var after := Reconcile(db, remote);
    forall i | 0 <= i < |db.subscriptions| ensures !Drifted(after, i, remote) {
      LicensingSubscriptions.ReconcileRows(db, |db.subscriptions|, remote, i);
    }
  }

  lemma ProcessedIsSeen(db: Db, e: Webhook)
    ensures ProcessWebhook(db, e).1.Ok? ==> WebhookSeen(ProcessWebhook(db, e).0.audit, e.id)
  {
    var after := ProcessWebhook(db, e).0;
    if !WebhookSeen(db.audit, e.id) && !Refused(db, e) {
      assert after.audit[|after.audit| - 1].kind == WebhookProcessed(e.id);
    }
  }
}
