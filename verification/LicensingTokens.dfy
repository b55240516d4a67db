/** What every run keeps about the licence token table: who is bound to which device. */
module LicensingTokens {
  import opened Prelude
  import opened LicensingData
  import opened LicensingHandlers

  /** The table's unique column: no device is bound twice. */
  ghost predicate UniqueFingerprints(tokens: seq<Token>) {
    forall i, j :: 0 <= i < j < |tokens| && tokens[i].fingerprint.Some? ==>
      tokens[i].fingerprint != tokens[j].fingerprint
  }

  /** A row is bound, or revoked, but never both or neither. */
  ghost predicate BoundOrRevoked(tokens: seq<Token>) {
    forall i :: 0 <= i < |tokens| ==>
      && (tokens[i].fingerprint.None? <==> tokens[i].revokedAt.Some?)
      && (tokens[i].fingerprint.None? <==> tokens[i].boundAt.None?)
      && tokens[i].fingerprint != Some("")
  }

  /** Only an account's newest row may be bound. */
  ghost predicate OnlyNewestBound(tokens: seq<Token>) {
    forall i, j :: 0 <= i < j < |tokens| && tokens[i].account == tokens[j].account ==> tokens[i].fingerprint.None?
  }

  ghost predicate SoundTokens(tokens: seq<Token>) {
    UniqueFingerprints(tokens) && BoundOrRevoked(tokens)
  }

  // ---- The writes ---------------------------------------------------------------------

  lemma UnbindKeeps(db: Db, token: nat)
    requires SoundTokens(db.tokens) && token < |db.tokens|
    ensures SoundTokens(Unbound(db, token))
    ensures OnlyNewestBound(db.tokens) ==> OnlyNewestBound(Unbound(db, token))
  {
  }

  lemma UpsertKeeps(db: Db, account: nat, device: string)
    requires SoundTokens(db.tokens) && device != ""
    ensures SoundTokens(UpsertToken(db, account, device))
    ensures OnlyNewestBound(db.tokens) && !BoundElsewhere(db.tokens, account, device) ==>
              OnlyNewestBound(UpsertToken(db, account, device))
  {
  }

  lemma InsertKeeps(db: Db, account: nat, device: string)
    requires SoundTokens(db.tokens) && device != "" && FindToken(db.tokens, device).None?
    ensures SoundTokens(db.tokens + [FreshToken(db, account, device)])
    ensures OnlyNewestBound(db.tokens) ==>
              (OnlyNewestBound(db.tokens + [FreshToken(db, account, device)]) <==> !HoldsBoundToken(db.tokens, account))
  {
    var tokens := db.tokens + [FreshToken(db, account, device)];
    if OnlyNewestBound(tokens) {
      forall i | 0 <= i < |db.tokens| && db.tokens[i].account == account ensures db.tokens[i].fingerprint.None? {
        assert tokens[i] == db.tokens[i] && tokens[|db.tokens|].account == account;
      }
    }
  }

  lemma RebindKeeps(db: Db, account: nat, device: string)
    requires SoundTokens(db.tokens) && device != "" && Rebound(db, account, device).Some?
    ensures SoundTokens(Rebound(db, account, device).value)
    ensures OnlyNewestBound(db.tokens) ==> OnlyNewestBound(Rebound(db, account, device).value)
  {
  }

  /** Some row of this account is bound. */
  ghost predicate HoldsBoundToken(tokens: seq<Token>, account: nat) {
    exists i :: 0 <= i < |tokens| && tokens[i].account == account && tokens[i].fingerprint.Some?
  }

  /**
   * The one request that leaves an account with two bound devices: a trial that
   * is allowed and completes for an account already holding a bound token.
   */
  ghost predicate DoublesBinding(db: Db, op: Op) {
    && op.DoStartTrial?
    && op.email != "" && op.device != ""
    && Decide(db, op.email, op.device) == AllowNewTrial
    && FindToken(db.tokens, op.device).None?
    && FindAccount(db.accounts, op.email).Some?
    && HoldsBoundToken(db.tokens, FindAccount(db.accounts, op.email).value)
  }

  // ---- Every operation -------------------------------------------------------------------

  ghost predicate Sound(db: Db) {
    && SoundTokens(db.tokens)
    && (forall i :: 0 <= i < |db.tokens| ==> db.tokens[i].account < |db.accounts|)
  }

  /** What one operation must keep. */
  ghost predicate Kept(before: Db, after: Db) {
    Sound(after) && (OnlyNewestBound(before.tokens) ==> OnlyNewestBound(after.tokens))
  }

  lemma ActivatedKeeps(db: Db, account: nat, email: string, device: string, interval: string, plan: string)
    requires Sound(db) && account < |db.accounts| && device != "" && !BoundElsewhere(db.tokens, account, device)
    ensures Kept(db, Activated(db, account, email, device, interval, plan))
  {
    UpsertKeeps(db, account, device);
  }

  lemma AdmittedKeeps(db: Db, email: string)
    requires Sound(db)
    ensures Kept(db, Admitted(db, email)) && Admitted(db, email).tokens == db.tokens
    ensures Kept(db, Logged(db, ActivationAttempt(email), None, None))
  {
  }

  lemma {:induction false} ActivateKeeps(db: Db, email: string, payment: PaymentCheck, device: string, interval: string)
    requires Sound(db)
    ensures Kept(db, Activate(db, email, payment, device, interval).0)
  {
    ActivateEnds(db, email, payment, device, interval);
    AdmittedKeeps(db, email);
    var known := Admitted(db, email);
    var account := FindAccount(known.accounts, email).value;
    if Activate(db, email, payment, device, interval).1.Ok? {
      ActivatedKeeps(known, account, email, device, interval, PlanFor(interval).value);
    }
  }

  lemma DeactivateKeeps(db: Db, device: string)
    requires Sound(db)
    ensures Kept(db, Deactivate(db, device).0)
  {
    var token := FindToken(db.tokens, device);
    if token.Some? { UnbindKeeps(db, token.value); }
  }

  lemma ResetKeeps(db: Db, email: string, reason: string)
    requires Sound(db)
    ensures Kept(db, ResetBinding(db, email, reason).0)
  {
    var account := FindAccount(db.accounts, email);
    if account.Some? {
      var token := NewestToken(db.tokens, account.value);
      if token.Some? { UnbindKeeps(db, token.value); }
    }
  }

  lemma ReissueKeeps(db: Db, email: string, device: string, reason: string)
    requires Sound(db)
    ensures Kept(db, Reissue(db, email, device, reason).0)
  {
    var account := FindAccount(db.accounts, email);
    if device != "" && account.Some? && Rebound(db, account.value, device).Some? {
      RebindKeeps(db, account.value, device);
    }
  }

  lemma StartTrialEffect(db: Db, email: string, device: string)
    requires Sound(db)
    ensures var after := StartTrial(db, email, device).0;
            && Sound(after)
            && (OnlyNewestBound(db.tokens) ==>
                  (OnlyNewestBound(after.tokens) <==> !DoublesBinding(db, DoStartTrial(email, device))))
  {
    StartTrialEnds(db, email, device);
    if email != "" && device != "" && Decide(db, email, device) == AllowNewTrial && FindToken(db.tokens, device).None? {
      TrialCompletedIs(db, email, device);
      InsertKeeps(db, FindAccount(WithAccount(db, email).accounts, email).value, device);
    }
  }

  lemma {:induction false} ReconcileKeepsTokens(db: Db, n: nat, remote: map<string, string>)
    requires n <= |db.subscriptions|
    ensures var after := ReconciledUpTo(db, n, remote);
            after.tokens == db.tokens && after.accounts == db.accounts
  {
    if n > 0 {
      ReconcileKeepsTokens(db, n - 1, remote);
    }
  }

  lemma OtherOpsKeepTokens(db: Db, op: Op)
    requires !op.DoActivate? && !op.DoDeactivate? && !op.DoResetBinding? && !op.DoReissue? && !op.DoStartTrial?
    ensures Apply(db, op).tokens == db.tokens && Apply(db, op).accounts == db.accounts
  {
    if op.DoReconcile? {
      ReconcileKeepsTokens(db, |db.subscriptions|, op.remote);
    }
  }

  /**
   * Every operation keeps the table's unique column and each row bound or
   * revoked; and it keeps "only the newest row of an account is bound" exactly
   * when it is not a completed trial for an account that already holds a binding.
   */
  lemma ApplyKeepsTokens(db: Db, op: Op)
    requires Sound(db)
    ensures Sound(Apply(db, op))
    ensures OnlyNewestBound(db.tokens) ==> (OnlyNewestBound(Apply(db, op).tokens) <==> !DoublesBinding(db, op))
  {
    match op {
      case DoActivate(email, payment, device, interval) => ActivateKeeps(db, email, payment, device, interval);
      case DoDeactivate(device) => DeactivateKeeps(db, device);
      case DoResetBinding(email, reason) => ResetKeeps(db, email, reason);
      case DoReissue(email, device, reason) => ReissueKeeps(db, email, device, reason);
      case DoStartTrial(email, device) => StartTrialEffect(db, email, device);
      case _ => OtherOpsKeepTokens(db, op);
    }
  }

  // ---- Main results ----------------------------------------------------------------------

  ghost predicate NeverDoubles(ops: seq<Op>) {
    forall k :: 0 <= k < |ops| ==> !DoublesBinding(Run(EMPTY_DB, ops[..k]), ops[k])
  }

  /**
   * In every reachable state of all token writers, a row's fingerprint is null
   * exactly when it is revoked and exactly when it has no binding time, and no
   * device is bound twice.
   */
  lemma {:induction false} RunKeepsSound(ops: seq<Op>)
    ensures Sound(Run(EMPTY_DB, ops))
  {
    if ops != [] {
      RunKeepsSound(ops[..|ops| - 1]);
      ApplyKeepsTokens(Run(EMPTY_DB, ops[..|ops| - 1]), ops[|ops| - 1]);
    }
  }

  lemma OneMoreRequest(ops: seq<Op>, k: nat)
    requires k < |ops|
    ensures var db := Run(EMPTY_DB, ops[..k]);
            OnlyNewestBound(db.tokens) ==>
              (OnlyNewestBound(Run(EMPTY_DB, ops[..k + 1]).tokens) <==> !DoublesBinding(db, ops[k]))
  {
    assert ops[..k + 1][..k] == ops[..k];
    RunKeepsSound(ops[..k]);
    ApplyKeepsTokens(Run(EMPTY_DB, ops[..k]), ops[k]);
  }

  lemma {:induction false} OnlyNewestUpTo(ops: seq<Op>, n: nat)
    requires NeverDoubles(ops) && n <= |ops|
    ensures OnlyNewestBound(Run(EMPTY_DB, ops[..n]).tokens)
  {
    if n > 0 {
      OnlyNewestUpTo(ops, n - 1);
      OneMoreRequest(ops, n - 1);
    }
  }

  /** All through a run only newest rows are bound, exactly when no trial completes for an account holding a binding. */
  lemma {:induction false} OnlyNewestBoundExactlyWhen(ops: seq<Op>)
    ensures (forall n :: 0 <= n <= |ops| ==> OnlyNewestBound(Run(EMPTY_DB, ops[..n]).tokens)) <==> NeverDoubles(ops)
  {
    if NeverDoubles(ops) {
      forall n | 0 <= n <= |ops| ensures OnlyNewestBound(Run(EMPTY_DB, ops[..n]).tokens) {
        OnlyNewestUpTo(ops, n);
      }
    } else {
      var k :| 0 <= k < |ops| && DoublesBinding(Run(EMPTY_DB, ops[..k]), ops[k]);
      OneMoreRequest(ops, k);
    }
  }

  /**
   * Over every such run each account has at most one bound token and it is the
   * account's newest.
   */
  lemma {:induction false} OneBoundTokenPerAccount(ops: seq<Op>)
    requires NeverDoubles(ops)
    ensures OnlyNewestBound(Run(EMPTY_DB, ops).tokens)
  {
    OnlyNewestUpTo(ops, |ops|);
    assert ops[..|ops|] == ops;
  }

  /** The device is held by a row of this account that is not its newest, on a live subscription. */
  predicate HeldByOlderRow(db: Db, account: nat, device: string) {
    var holder := FindToken(db.tokens, device);
    var s := NewestSubscription(db.subscriptions, account);
    && holder.Some? && db.tokens[holder.value].account == account
    && holder != NewestToken(db.tokens, account)
    && s.Some? && Refreshable(db.subscriptions[s.value].status)
  }

  /** A reissue is refused by the unique column exactly when an older row of the account holds the device. */
  lemma {:induction false} ReissueCollidesExactlyWhen(db: Db, email: string, device: string, reason: string)
    ensures Reissue(db, email, device, reason).1 == Err(ConstraintViolation) <==>
              && email != "" && device != "" && !Blank(reason)
              && FindAccount(db.accounts, email).Some?
              && HeldByOlderRow(db, FindAccount(db.accounts, email).value, device)
  {
  }

  lemma HolderIsNewest(tokens: seq<Token>, device: string)
    requires OnlyNewestBound(tokens) && FindToken(tokens, device).Some?
    ensures NewestToken(tokens, tokens[FindToken(tokens, device).value].account) == FindToken(tokens, device)
  {
  }

  /** In such runs a reissue is never refused by the unique column: it rebinds the row that holds the device. */
  lemma {:induction false} ReissueNeverCollides(ops: seq<Op>, email: string, device: string, reason: string)
    requires NeverDoubles(ops)
    ensures Reissue(Run(EMPTY_DB, ops), email, device, reason).1 != Err(ConstraintViolation)
  {
    var db := Run(EMPTY_DB, ops);
    OneBoundTokenPerAccount(ops);
    ReissueCollidesExactlyWhen(db, email, device, reason);
    if FindToken(db.tokens, device).Some? { HolderIsNewest(db.tokens, device); }
  }

  /**
   * Reactivation never finds a revoked row: the row an activation updates in
   * place was not revoked, and a device with no bound row always gets a fresh one.
   */
  lemma {:induction false} ActivationReusesOnlyBoundRows(ops: seq<Op>, email: string, payment: PaymentCheck,
                                                         device: string, interval: string)
    requires var db := Run(EMPTY_DB, ops); Activate(db, email, payment, device, interval).1.Ok?
    ensures var db, after := Run(EMPTY_DB, ops), Activate(Run(EMPTY_DB, ops), email, payment, device, interval).0;
            var holder := FindToken(db.tokens, device);
            if holder.Some?
            then db.tokens[holder.value].revokedAt.None? && |after.tokens| == |db.tokens|
                 && after.tokens[holder.value].account == db.tokens[holder.value].account
                 && after.tokens[holder.value].boundAt == db.tokens[holder.value].boundAt
            else |after.tokens| == |db.tokens| + 1 && db.tokens <= after.tokens
                 && after.tokens[|db.tokens|].fingerprint == Some(device)
                 && after.tokens[|db.tokens|].account < |after.accounts|
                 && after.accounts[after.tokens[|db.tokens|].account].email == email
  {
    RunKeepsSound(ops);
    var db := Run(EMPTY_DB, ops);
    ActivateEnds(db, email, payment, device, interval);
    AdmittedKeeps(db, email);
    var known := Admitted(db, email);
    ActivatedRow(known, FindAccount(known.accounts, email).value, email, device, interval, PlanFor(interval).value);
  }

  lemma ActivatedRow(db: Db, account: nat, email: string, device: string, interval: string, plan: string)
    requires Sound(db) && FindAccount(db.accounts, email) == Some(account)
    ensures var holder := FindToken(db.tokens, device);
            var after := Activated(db, account, email, device, interval, plan);
            && after.accounts == db.accounts
            && if holder.Some? then
                 && db.tokens[holder.value].revokedAt.None? && |after.tokens| == |db.tokens|
                 && after.tokens[holder.value].account == db.tokens[holder.value].account
                 && after.tokens[holder.value].boundAt == db.tokens[holder.value].boundAt
               else after.tokens == db.tokens + [FreshToken(db, account, device)]
  {
  }

  lemma MarkingKeepsAccount(accounts: seq<Account>, a: nat, email: string)
    requires a < |accounts|
    ensures FindAccount(accounts[a := accounts[a].(trialUsed := true)], email) == FindAccount(accounts, email)
  {
    var marked := accounts[a := accounts[a].(trialUsed := true)];
    assert forall i :: 0 <= i < |accounts| ==> marked[i].email == accounts[i].email;
    if FindAccount(accounts, email).Some? { assert marked[FindAccount(accounts, email).value].email == email; }
    if FindAccount(marked, email).Some? { assert accounts[FindAccount(marked, email).value].email == email; }
  }

  /**
   * The exception matters: once a trial has doubled an account's binding, a
   * reissue back to the first device is refused by the unique column.
   */
  lemma DoubledBindingCollides(db: Db, email: string, first: string, second: string, reason: string)
    requires Sound(db) && DoublesBinding(db, DoStartTrial(email, second))
    requires var a := FindAccount(db.accounts, email).value;
             var newest := NewestToken(db.tokens, a);
             newest.Some? && db.tokens[newest.value].fingerprint == Some(first) && first != ""
    requires !Blank(reason)
    ensures Reissue(StartTrial(db, email, second).0, email, first, reason).1 == Err(ConstraintViolation)
  {
    var a := FindAccount(db.accounts, email).value;
    var after := TrialCompleted(db, email, second);
    TrialCompletedIs(db, email, second);
    assert FindToken(db.tokens, second).None?;
    var n := NewestToken(db.tokens, a).value;
    assert after.tokens[n] == db.tokens[n] && after.tokens[|db.tokens|] == FreshToken(db, a, second);
    MarkingKeepsAccount(db.accounts, a, email);
    assert after.accounts == db.accounts[a := db.accounts[a].(trialUsed := true)];
    assert NewestToken(after.tokens, a) == Some(|db.tokens|);
    var holder := FindToken(after.tokens, first);
    assert holder.Some? && holder.value < |db.tokens|;
    assert UniqueFingerprints(db.tokens) && after.tokens[holder.value] == db.tokens[holder.value];
    assert holder.value == n;
    var s := NewestSubscription(after.subscriptions, a);
    assert s == Some(|db.subscriptions|) && after.subscriptions[s.value].status == Trialing;
  }

  /** The first activation of an empty service. */
  lemma FirstActivation(email: string, device: string)
    requires email != "" && device != ""
    ensures var db := Apply(EMPTY_DB, DoActivate(email, SignatureValid, device, "monthly"));
            && db.accounts == [Account(email, false)] && db.tokens == [FreshToken(EMPTY_DB, 0, device)]
            && db.subscriptions == [Subscription(0, MONTHLY_PLAN, Active, "monthly", Some(0), None, false)]
            && |db.audit| == 2 && !IsTrial(db.audit[0]) && !IsTrial(db.audit[1])
  {
    var logged := Logged(EMPTY_DB, ActivationAttempt(email), None, None);
    RecentIsSmall(logged.audit, ActivationAttempt(email), 0 - RATE_LIMIT_WINDOW_MS);
    assert Admitted(EMPTY_DB, email).accounts == [Account(email, false)];
  }

  predicate IsTrial(r: AuditRow) {
    r.kind == TrialStarted
  }

  lemma DoubledAfterActivation(db: Db, email: string, first: string, second: string, reason: string)
    requires email != "" && first != "" && second != "" && first != second && !Blank(reason)
    requires db.accounts == [Account(email, false)] && db.tokens == [FreshToken(EMPTY_DB, 0, first)]
    requires |db.audit| == 2 && !IsTrial(db.audit[0]) && !IsTrial(db.audit[1])
    ensures DoublesBinding(db, DoStartTrial(email, second))
    ensures Reissue(StartTrial(db, email, second).0, email, first, reason).1 == Err(ConstraintViolation)
  {
    assert !DeviceStartedTrial(db.audit, second);
    assert FindToken(db.tokens, second) == None;
    assert FindAccount(db.accounts, email) == Some(0) && NewestToken(db.tokens, 0) == Some(0);
    assert HoldsBoundToken(db.tokens, 0) by { assert db.tokens[0].fingerprint.Some?; }
    DoubledBindingCollides(db, email, first, second, reason);
  }

  /** The case is reached from nothing: activate one device, take a trial on another, and go back. */
  lemma {:induction false} DoubledBindingIsReached(email: string, first: string, second: string, reason: string)
    requires email != "" && first != "" && second != "" && first != second && !Blank(reason)
    ensures var activate, trial := DoActivate(email, SignatureValid, first, "monthly"), DoStartTrial(email, second);
            && DoublesBinding(Run(EMPTY_DB, [activate]), trial)
            && Reissue(Run(EMPTY_DB, [activate, trial]), email, first, reason).1 == Err(ConstraintViolation)
  {
    var activate, trial := DoActivate(email, SignatureValid, first, "monthly"), DoStartTrial(email, second);
    RunTwo(EMPTY_DB, activate, trial);
    FirstActivation(email, first);
    DoubledAfterActivation(Apply(EMPTY_DB, activate), email, first, second, reason);
  }

  /** After a device is released it cannot be refreshed, whatever token it presents. */
  lemma {:induction false} ReleasedDeviceCannotRefresh(ops: seq<Op>, device: string, claims: Option<Jwt>)
    requires Deactivate(Run(EMPTY_DB, ops), device).1.Ok?
    ensures Refresh(Deactivate(Run(EMPTY_DB, ops), device).0, claims, device).1.Err?
  {
    RunKeepsSound(ops);
    UnboundForgets(Run(EMPTY_DB, ops), device);
  }

  lemma UnboundForgets(db: Db, device: string)
    requires UniqueFingerprints(db.tokens) && FindToken(db.tokens, device).Some?
    ensures FindToken(Unbound(db, FindToken(db.tokens, device).value), device).None?
  {
    var t := FindToken(db.tokens, device).value;
    var tokens := Unbound(db, t);
    forall i | 0 <= i < |tokens| ensures tokens[i].fingerprint != Some(device) {
      if i != t { assert tokens[i] == db.tokens[i]; }
    }
  }
}
