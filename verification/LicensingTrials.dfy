/** What every run keeps about trials: one per account and one per device, for life. */
module LicensingTrials {
  import opened Prelude
  import opened LicensingData
  import opened LicensingHandlers
  import LicensingSubscriptions

  predicate IsTrialRow(r: AuditRow) {
    r.kind == TrialStarted
  }

  ghost predicate UniqueEmails(accounts: seq<Account>) {
    forall i, j :: 0 <= i < j < |accounts| ==> accounts[i].email != accounts[j].email
  }

  /** Every started trial names its device and an account marked as having used its trial. */
  ghost predicate TrialsRecorded(db: Db) {
    forall i :: 0 <= i < |db.audit| && IsTrialRow(db.audit[i]) ==>
      && db.audit[i].device.Some?
      && db.audit[i].account.Some?
      && db.audit[i].account.value < |db.accounts|
      && db.accounts[db.audit[i].account.value].trialUsed
  }

  /** No account and no device appears in two started trials. */
  ghost predicate TrialsOneToOne(audit: seq<AuditRow>) {
    forall i, j :: 0 <= i < j < |audit| && IsTrialRow(audit[i]) && IsTrialRow(audit[j]) ==>
      audit[i].account != audit[j].account && audit[i].device != audit[j].device
  }

  ghost predicate Inv(db: Db) {
    UniqueEmails(db.accounts) && TrialsRecorded(db) && TrialsOneToOne(db.audit)
  }

  /** Whatever else it does, this step starts no trial and forgets none. */
  ghost predicate NoTrial(before: Db, after: Db) {
    && before.audit <= after.audit
    && (forall i :: |before.audit| <= i < |after.audit| ==> !IsTrialRow(after.audit[i]))
    && before.accounts <= after.accounts
    && (UniqueEmails(before.accounts) ==> UniqueEmails(after.accounts))
  }

  lemma NoTrialKeepsInv(before: Db, after: Db)
    requires Inv(before) && NoTrial(before, after)
    ensures Inv(after)
  {
    forall i | 0 <= i < |after.audit| && IsTrialRow(after.audit[i])
      ensures i < |before.audit| && after.audit[i] == before.audit[i]
    {
    }
  }

  lemma {:induction false} ReconcileStartsNoTrial(db: Db, n: nat, remote: map<string, string>)
    requires n <= |db.subscriptions|
    ensures NoTrial(db, ReconciledUpTo(db, n, remote))
  {
    if n > 0 {
      ReconcileStartsNoTrial(db, n - 1, remote);
    }
  }

  lemma ActivateStartsNoTrial(db: Db, email: string, payment: PaymentCheck, device: string, interval: string)
    ensures NoTrial(db, Activate(db, email, payment, device, interval).0)
  {
    ActivateEnds(db, email, payment, device, interval);
    assert NoTrial(db, Admitted(db, email));
  }

  lemma OneRowStartsNoTrial(before: Db, after: Db)
    requires after.accounts == before.accounts && before.audit <= after.audit
    requires after.audit == before.audit
          || (|after.audit| == |before.audit| + 1 && !IsTrialRow(after.audit[|before.audit|]))
    ensures NoTrial(before, after)
  {
  }

  lemma OthersStartNoTrial(db: Db, op: Op)
    requires !op.DoStartTrial?
    ensures NoTrial(db, Apply(db, op))
  {
    match op {
      case DoActivate(email, payment, device, interval) => ActivateStartsNoTrial(db, email, payment, device, interval);
      case DoReconcile(remote) => ReconcileStartsNoTrial(db, |db.subscriptions|, remote);
      case _ => OneRowStartsNoTrial(db, Apply(db, op));
    }
  }

  /** The state an allowed trial completes from: its account has not used its trial, so no recorded one is its own. */
  lemma FreshForTrial(db: Db, email: string, device: string)
    requires Inv(db) && !TrialUsed(db, email) && !DeviceStartedTrial(db.audit, device)
    ensures var known := WithAccount(db, email);
            var account := FindAccount(known.accounts, email).value;
            && Inv(known) && known.audit == db.audit && !known.accounts[account].trialUsed
            && forall i :: 0 <= i < |db.audit| && IsTrialRow(db.audit[i]) ==>
                 db.audit[i].account != Some(account) && db.audit[i].device != Some(device)
  {
    var known := WithAccount(db, email);
    NoTrialKeepsInv(db, known);
    forall i | 0 <= i < |db.audit| && IsTrialRow(db.audit[i])
      ensures db.audit[i].account != Some(FindAccount(known.accounts, email).value)
      ensures db.audit[i].device != Some(device)
    {
      assert known.audit[i] == db.audit[i];
    }
  }

  /** Recording one more trial, for an account and a device that have none. */
  lemma RecordingKeepsInv(before: Db, after: Db, account: nat, device: string)
    requires Inv(before) && account < |before.accounts|
    requires forall i :: 0 <= i < |before.audit| && IsTrialRow(before.audit[i]) ==>
               before.audit[i].account != Some(account) && before.audit[i].device != Some(device)
    requires after.accounts == before.accounts[account := before.accounts[account].(trialUsed := true)]
    requires after.audit == before.audit + [AuditRow(TrialStarted, Some(account), Some(device), before.now)]
    ensures Inv(after)
  {
    forall i | 0 <= i < |after.audit| && IsTrialRow(after.audit[i])
      ensures i == |before.audit| || after.audit[i] == before.audit[i]
    {
    }
  }

  lemma CompletedTrialKeepsInv(db: Db, email: string, device: string)
    requires Inv(db) && !TrialUsed(db, email) && !DeviceStartedTrial(db.audit, device)
    ensures Inv(TrialCompleted(db, email, device))
  {
    FreshForTrial(db, email, device);
    TrialCompletedIs(db, email, device);
    var known := WithAccount(db, email);
    RecordingKeepsInv(known, TrialCompleted(db, email, device), FindAccount(known.accounts, email).value, device);
  }

  lemma {:induction false} StartTrialKeepsInv(db: Db, email: string, device: string)
    requires Inv(db)
    ensures Inv(StartTrial(db, email, device).0)
  {
    StartTrialEnds(db, email, device);
    if email != "" && device != "" {
      if Decide(db, email, device) != AllowNewTrial {
        NoTrialKeepsInv(db, StartTrial(db, email, device).0);
      } else if FindToken(db.tokens, device).Some? {
        NoTrialKeepsInv(db, TrialOpened(db, email));
      } else {
        CompletedTrialKeepsInv(db, email, device);
      }
    }
  }

  lemma {:induction false} ApplyKeepsInv(db: Db, op: Op)
    requires Inv(db)
    ensures Inv(Apply(db, op))
  {
    if op.DoStartTrial? {
      StartTrialKeepsInv(db, op.email, op.device);
    } else {
      OthersStartNoTrial(db, op);
      NoTrialKeepsInv(db, Apply(db, op));
    }
  }

  lemma {:induction false} RunKeepsInv(ops: seq<Op>)
    ensures Inv(Run(EMPTY_DB, ops))
  {
    if ops != [] {
      RunKeepsInv(ops[..|ops| - 1]);
      ApplyKeepsInv(Run(EMPTY_DB, ops[..|ops| - 1]), ops[|ops| - 1]);
    }
  }

  // ---- Main results -----------------------------------------------------------------

  /** Two started trials of these tables are for different e-mail addresses and different devices. */
  ghost predicate TrialsDiffer(db: Db, i: nat, j: nat)
    requires i < |db.audit| && j < |db.audit|
  {
    var r, s := db.audit[i], db.audit[j];
    && r.device.Some? && s.device.Some? && r.device != s.device
    && r.account.Some? && r.account.value < |db.accounts|
    && s.account.Some? && s.account.value < |db.accounts|
    && db.accounts[r.account.value].email != db.accounts[s.account.value].email
  }

  lemma InvSeparatesTrials(db: Db, i: nat, j: nat)
    requires Inv(db) && i < j < |db.audit| && IsTrialRow(db.audit[i]) && IsTrialRow(db.audit[j])
    ensures TrialsDiffer(db, i, j)
  {
    var a, b := db.audit[i].account.value, db.audit[j].account.value;
    assert a < b ==> db.accounts[a].email != db.accounts[b].email;
    assert b < a ==> db.accounts[b].email != db.accounts[a].email;
  }

  /**
   * Over every run of mixed requests, completed trials are one-to-one between
   * e-mail addresses and devices: two different trials differ in both.
   */
  lemma {:induction false} TrialsAreOneToOne(ops: seq<Op>, i: nat, j: nat)
    requires var audit := Run(EMPTY_DB, ops).audit;
             i < j < |audit| && audit[i].kind == TrialStarted && audit[j].kind == TrialStarted
    ensures TrialsDiffer(Run(EMPTY_DB, ops), i, j)
  {
    RunKeepsInv(ops);
    InvSeparatesTrials(Run(EMPTY_DB, ops), i, j);
  }

  /**
   * A request is answered as a returning device exactly when the device is bound
   * to an account whose newest subscription is past its trial; that binding and
   * that subscription exist, and no table but the audit log changes.
   */
  lemma ReturningDeviceChangesOnlyTheLog(db: Db, email: string, device: string)
    requires email != "" && device != ""
    ensures Decide(db, email, device).RecognizedReturningDevice? <==>
              exists t, s :: 0 <= t < |db.tokens| && FindToken(db.tokens, device) == Some(t)
                && NewestSubscription(db.subscriptions, db.tokens[t].account) == Some(s)
                && db.subscriptions[s].status != Trialing
    ensures Decide(db, email, device).RecognizedReturningDevice? ==>
              var (after, answer) := StartTrial(db, email, device);
              && answer.Ok?
              && after.accounts == db.accounts && after.subscriptions == db.subscriptions
              && after.tokens == db.tokens && after.payments == db.payments
              && |after.audit| == |db.audit| + 1 && db.audit <= after.audit
              && |after.issued| == |db.issued| + 1
  {
    if Decide(db, email, device).RecognizedReturningDevice? {
      var t := FindToken(db.tokens, device);
      var s := NewestSubscription(db.subscriptions, db.tokens[t.value].account);
      assert t.Some? && s.Some? && db.subscriptions[s.value].status != Trialing;
    }
  }

  /**
   * In every run, a trial request stops midway exactly when neither its e-mail nor
   * its device has had a trial and the device is still bound to a trialing
   * licence; the trialing subscription is left behind, but there is no token, no
   * started trial and the account may try again.
   */
  lemma {:induction false} TrialStopsMidwayExactlyWhen(ops: seq<Op>, email: string, device: string)
    requires email != "" && device != ""
    ensures var db := Run(EMPTY_DB, ops);
            StartTrial(db, email, device).1 == Err(ConstraintViolation) <==>
              && !TrialUsed(db, email) && !DeviceStartedTrial(db.audit, device)
              && BoundStatus(db, device) == Some(Trialing)
    ensures var db := Run(EMPTY_DB, ops);
            StartTrial(db, email, device).1 == Err(ConstraintViolation) ==>
              var after := StartTrial(db, email, device).0;
              && |after.subscriptions| == |db.subscriptions| + 1
              && after.subscriptions[|db.subscriptions|].status == Trialing
              && after.tokens == db.tokens && after.audit == db.audit
              && !TrialUsed(after, email)
  {
    LicensingSubscriptions.RunKeepsSubscribed(ops);
    BoundHasStatus(Run(EMPTY_DB, ops), device);
    MidwayExactlyWhen(Run(EMPTY_DB, ops), email, device);
  }

  lemma BoundHasStatus(db: Db, device: string)
    requires LicensingSubscriptions.TokensSubscribed(db)
    ensures FindToken(db.tokens, device).Some? <==> BoundStatus(db, device).Some?
  {
    var t := FindToken(db.tokens, device);
    if t.Some? {
      assert LicensingSubscriptions.Subscribed(db.subscriptions, db.tokens[t.value].account);
    }
  }

  lemma MidwayExactlyWhen(db: Db, email: string, device: string)
    requires email != "" && device != ""
    ensures StartTrial(db, email, device).1 == Err(ConstraintViolation) <==>
              && !TrialUsed(db, email) && !DeviceStartedTrial(db.audit, device)
              && FindToken(db.tokens, device).Some?
              && (BoundStatus(db, device) == None || BoundStatus(db, device) == Some(Trialing))
    ensures StartTrial(db, email, device).1 == Err(ConstraintViolation) ==>
              var after := StartTrial(db, email, device).0;
              && |after.subscriptions| == |db.subscriptions| + 1
              && after.subscriptions[|db.subscriptions|].status == Trialing
              && after.tokens == db.tokens && after.audit == db.audit
              && !TrialUsed(after, email)
  {
  }

  /**
   * The case is reachable: support moves a trialing licence to a device that
   * never started a trial, and the next person to try a trial there is stopped.
   */
  lemma ReissuedTrialStrandsTheNext(db: Db, owner: string, device: string, reason: string, other: string)
    requires Reissue(db, owner, device, reason).1.Ok? && other != "" && other != owner
    requires var a := FindAccount(db.accounts, owner).value;
             db.subscriptions[NewestSubscription(db.subscriptions, a).value].status == Trialing
    requires !TrialUsed(db, other) && !DeviceStartedTrial(db.audit, device)
    ensures StartTrial(Reissue(db, owner, device, reason).0, other, device).1 == Err(ConstraintViolation)
  {
    var after := Reissue(db, owner, device, reason).0;
    var a := FindAccount(db.accounts, owner).value;
    var n := |db.audit|;
    assert after.audit[..n] == db.audit && after.audit[n].kind == TokenReissued(reason);
    assert !DeviceStartedTrial(after.audit, device);
    var newest := NewestToken(db.tokens, a);
    var i := if newest.Some? then newest.value else |db.tokens|;
    assert after.tokens[i] == FreshToken(db, a, device);
    var t := FindToken(after.tokens, device);
    assert t == Some(i) by {
      assert forall k :: 0 <= k < |db.tokens| && k != i ==> after.tokens[k] == db.tokens[k];
    }
    assert BoundStatus(after, device) == Some(Trialing);
    MidwayExactlyWhen(after, other, device);
  }

  /** The first trial of an empty service. */
  lemma FirstTrial(empty: Db, owner: string, device: string)
    requires empty == EMPTY_DB && owner != "" && device != ""
    ensures var db := StartTrial(empty, owner, device).0;
            && db.accounts == [Account(owner, true)] && db.tokens == [FreshToken(empty, 0, device)]
            && db.subscriptions == [Subscription(0, MONTHLY_PLAN, Trialing, "monthly", Some(0), Some(TRIAL_MS), false)]
            && db.audit == [AuditRow(TrialStarted, Some(0), Some(device), 0)]
  {
    assert FindToken(empty.tokens, device) == None && FindAccount(empty.accounts, owner) == None;
    assert Decide(empty, owner, device) == AllowNewTrial;
    StartTrialEnds(empty, owner, device);
    TrialCompletedIs(empty, owner, device);
    var known := WithAccount(empty, owner);
    assert known.accounts == [Account(owner, false)];
    assert FindAccount(known.accounts, owner) == Some(0);
  }

  /**
   * From nothing: someone takes a trial, support moves it to another device, and
   * whoever tries a trial there next is stopped midway.
   */
  lemma {:induction false} StrandedTrialIsReached(owner: string, first: string, device: string, reason: string,
                                                  other: string)
    requires owner != "" && first != "" && device != "" && first != device && !Blank(reason)
    requires other != "" && other != owner
    ensures var ops := [DoStartTrial(owner, first), DoReissue(owner, device, reason)];
            StartTrial(Run(EMPTY_DB, ops), other, device).1 == Err(ConstraintViolation)
  {
    var trial, move := DoStartTrial(owner, first), DoReissue(owner, device, reason);
    RunTwo(EMPTY_DB, trial, move);
    FirstTrial(EMPTY_DB, owner, first);
    StrandedAfterTrial(Apply(EMPTY_DB, trial), owner, first, device, reason, other);
  }

  lemma StrandedAfterTrial(db: Db, owner: string, first: string, device: string, reason: string, other: string)
    requires owner != "" && first != "" && device != "" && first != device && !Blank(reason)
    requires other != "" && other != owner
    requires db.accounts == [Account(owner, true)] && db.tokens == [FreshToken(EMPTY_DB, 0, first)]
    requires db.subscriptions == [Subscription(0, MONTHLY_PLAN, Trialing, "monthly", Some(0), Some(TRIAL_MS), false)]
    requires db.audit == [AuditRow(TrialStarted, Some(0), Some(first), 0)]
    ensures StartTrial(Reissue(db, owner, device, reason).0, other, device).1 == Err(ConstraintViolation)
  {
    assert FindAccount(db.accounts, owner) == Some(0) && FindAccount(db.accounts, other) == None;
    assert NewestSubscription(db.subscriptions, 0) == Some(0);
    assert FindToken(db.tokens, device) == None;
    ReissuedTrialStrandsTheNext(db, owner, device, reason, other);
  }
}
