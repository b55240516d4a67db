/**
 * What each endpoint answers and writes, said of the rows of the tables alone: a
 * row is "newest" when no later row matches, and every other row stays.
 */
module LicensingAnswers {
  import opened Prelude
  import opened LicensingData
  import opened LicensingHandlers
  import LicensingTokens
  import LicensingSubscriptions

  const TWO_DAYS_MS := 172800000
  const TWO_DAYS_S := 172800
  const FOURTEEN_DAYS_MS := 1209600000
  const ONE_HOUR_MS := 3600000

  ghost predicate AccountRow(accounts: seq<Account>, email: string, a: int) {
    && 0 <= a < |accounts| && accounts[a].email == email
    && forall b :: a < b < |accounts| ==> accounts[b].email != email
  }

  ghost predicate NewestTokenRow(tokens: seq<Token>, account: nat, t: int) {
    && 0 <= t < |tokens| && tokens[t].account == account
    && forall u :: t < u < |tokens| ==> tokens[u].account != account
  }

  ghost predicate NewestSubscriptionRow(subscriptions: seq<Subscription>, account: nat, s: int) {
    && 0 <= s < |subscriptions| && subscriptions[s].account == account
    && forall r :: s < r < |subscriptions| ==> subscriptions[r].account != account
  }

  ghost predicate HasSubscription(subscriptions: seq<Subscription>, account: nat) {
    exists s :: NewestSubscriptionRow(subscriptions, account, s)
  }

  ghost predicate DeviceRow(tokens: seq<Token>, device: string, t: int) {
    && 0 <= t < |tokens| && tokens[t].fingerprint == Some(device)
    && forall u :: t < u < |tokens| ==> tokens[u].fingerprint != Some(device)
  }

  /** Some row of the table is bound to the device. */
  ghost predicate DeviceKnown(tokens: seq<Token>, device: string) {
    exists t :: 0 <= t < |tokens| && tokens[t].fingerprint == Some(device)
  }

  ghost predicate EmailKnown(accounts: seq<Account>, email: string) {
    exists a :: 0 <= a < |accounts| && accounts[a].email == email
  }

  /** The account's newest subscription exists and has not been canceled. */
  ghost predicate Entitled(subscriptions: seq<Subscription>, account: nat) {
    exists s :: NewestSubscriptionRow(subscriptions, account, s) && subscriptions[s].status != Canceled
  }

  /** Rows of the token table other than one. */
  ghost predicate OnlyRowChanged<T>(before: seq<T>, after: seq<T>, row: int, now: T) {
    && 0 <= row < |before| == |after| && after[row] == now
    && forall i :: 0 <= i < |before| && i != row ==> after[i] == before[i]
  }

  predicate IsAt(found: Option<nat>, row: int) {
    found.Some? && found.value == row
  }

  lemma AccountFound(accounts: seq<Account>, email: string)
    ensures EmailKnown(accounts, email) <==> FindAccount(accounts, email).Some?
    ensures forall a :: AccountRow(accounts, email, a) <==> IsAt(FindAccount(accounts, email), a)
  {
  }

  lemma NewestTokenFound(tokens: seq<Token>, account: nat)
    ensures forall t :: NewestTokenRow(tokens, account, t) <==> IsAt(NewestToken(tokens, account), t)
  {
  }

  lemma NewestSubscriptionFound(subscriptions: seq<Subscription>, account: nat)
    ensures forall s ::
              NewestSubscriptionRow(subscriptions, account, s) <==> IsAt(NewestSubscription(subscriptions, account), s)
    ensures Entitled(subscriptions, account) <==>
              var s := NewestSubscription(subscriptions, account);
              s.Some? && Refreshable(subscriptions[s.value].status)
  {
    if NewestSubscription(subscriptions, account).Some? {
      assert NewestSubscriptionRow(subscriptions, account, NewestSubscription(subscriptions, account).value);
    }
  }

  lemma DeviceFound(tokens: seq<Token>, device: string)
    ensures DeviceKnown(tokens, device) <==> FindToken(tokens, device).Some?
    ensures forall t :: DeviceRow(tokens, device, t) <==> IsAt(FindToken(tokens, device), t)
  {
  }

  // ---- Activation -----------------------------------------------------------------------

  /** Attempts for the e-mail logged in the last hour, before this one. */
  ghost function Attempts(db: Db, email: string): set<nat> {
    set i | 0 <= i < |db.audit|
            && db.audit[i].kind == ActivationAttempt(email) && db.now - ONE_HOUR_MS <= db.audit[i].at
  }

  /** The e-mail's account has a newest token row, and that row names a device other than this one. */
  ghost predicate BoundToAnother(db: Db, email: string, device: string) {
    exists a, t ::
      && AccountRow(db.accounts, email, a) && NewestTokenRow(db.tokens, a, t)
      && db.tokens[t].fingerprint.Some? && db.tokens[t].fingerprint.value != ""
      && db.tokens[t].fingerprint.value != device
  }

  lemma LogOneAttempt(db: Db, email: string)
    ensures |Recent(Logged(db, ActivationAttempt(email), None, None).audit, ActivationAttempt(email),
                    db.now - RATE_LIMIT_WINDOW_MS)| == |Attempts(db, email)| + 1
  {
    var row := AuditRow(ActivationAttempt(email), None, None, db.now);
    RecentGrows(db.audit, row, row.kind, db.now - RATE_LIMIT_WINDOW_MS);
    assert Recent(db.audit, row.kind, db.now - RATE_LIMIT_WINDOW_MS) == Attempts(db, email);
    assert |db.audit| !in Attempts(db, email);
  }

  lemma BindingGate(db: Db, email: string, device: string)
    requires LicensingTokens.Sound(db)
    ensures var known := Admitted(db, email);
            BoundElsewhere(known.tokens, FindAccount(known.accounts, email).value, device)
            <==> BoundToAnother(db, email, device)
  {
    AccountFound(db.accounts, email);
    var known := Admitted(db, email);
    var a := FindAccount(known.accounts, email).value;
    assert known.tokens == db.tokens;
    NewestTokenFound(db.tokens, a);
    if FindAccount(db.accounts, email).Some? {
      assert known.accounts == db.accounts && AccountRow(db.accounts, email, a);
      if BoundElsewhere(db.tokens, a, device) {
        assert NewestTokenRow(db.tokens, a, NewestToken(db.tokens, a).value);
      }
    } else {
      assert a == |db.accounts|;
    }
  }

  /** The answer of an activation, gate by gate, from the request and the rows. */
  lemma {:induction false} ActivationAnswers(db: Db, email: string, payment: PaymentCheck, device: string,
                                             interval: string)
    requires LicensingTokens.Sound(db)
    requires email != "" && device != "" && interval != ""
    ensures var answer := Activate(db, email, payment, device, interval).1;
            && (answer == Err(RateLimited) <==> |Attempts(db, email)| >= 5)
            && (|Attempts(db, email)| < 5 ==>
                  && (answer == Err(PaymentUnavailable) <==> payment == FetchFailed)
                  && (answer == Err(PaymentVerificationFailed) <==> payment == SignatureInvalid)
                  && (payment == SignatureValid ==>
                        && (answer == Err(ValidationError) <==> interval != "monthly" && interval != "annual")
                        && (interval == "monthly" || interval == "annual" ==>
                              && (answer == Err(DeviceAlreadyBound) <==> BoundToAnother(db, email, device))
                              && (answer == Ok(()) <==> !BoundToAnother(db, email, device)))))
  {
    LogOneAttempt(db, email);
    BindingGate(db, email, device);
  }

  function PlanText(interval: string): string {
    if interval == "monthly" then "desktop_pro_monthly" else "desktop_pro_annual"
  }

  /** The plan an interval buys. */
  lemma IntervalBuysPlan(interval: string)
    ensures PlanFor("monthly") == Some("desktop_pro_monthly") && PlanFor("annual") == Some("desktop_pro_annual")
    ensures PlanFor(interval).Some? ==> PlanFor(interval).value == PlanText(interval)
    ensures PlanFor(interval).Some? <==> interval == "monthly" || interval == "annual"
  {
  }

  /** What the writes of an activation leave, given its account and whether that has a subscription. */
  lemma ActivatedIs(db: Db, a: nat, email: string, device: string, interval: string, plan: string)
    ensures var after := Activated(db, a, email, device, interval, plan);
            after == db.(
              subscriptions :=
                if HasSubscription(db.subscriptions, a) then db.subscriptions
                else db.subscriptions + [Subscription(a, plan, Active, interval, Some(db.now), None, false)],
              tokens := after.tokens,
              issued := db.issued + [Jwt(email, device, plan, interval, db.now / 1000, db.now / 1000 + TWO_DAYS_S,
                                         ByActivation, a)],
              audit := db.audit + [AuditRow(LicenseActivated, Some(a), Some(device), db.now)])
    ensures Activated(db, a, email, device, interval, plan).tokens == UpsertToken(db, a, device)
  {
    NewestSubscriptionFound(db.subscriptions, a);
    var s := NewestSubscription(db.subscriptions, a);
    if s.Some? { assert NewestSubscriptionRow(db.subscriptions, a, s.value); }
  }

  /** The device's row is renewed where it stands, or a first one is added for the account. */
  lemma UpsertIs(db: Db, a: nat, device: string)
    ensures Bound(db.tokens, UpsertToken(db, a, device), device, a, db.now)
  {
    DeviceFound(db.tokens, device);
  }

  /** A row bound from now for two days. */
  function BoundRow(account: nat, device: string, now: nat): Token {
    Token(account, Some(device), Some(now), now, now + TWO_DAYS_MS, None)
  }

  /** The same binding, issued again from now for two days. */
  function RenewedRow(t: Token, now: nat): Token {
    Token(t.account, t.fingerprint, t.boundAt, now, now + TWO_DAYS_MS, None)
  }

  /** Only the device's row changed: renewed where it stands, or added for the account. */
  ghost predicate Bound(before: seq<Token>, after: seq<Token>, device: string, a: nat, now: nat) {
    && (forall t :: DeviceRow(before, device, t) ==> OnlyRowChanged(before, after, t, RenewedRow(before[t], now)))
    && (!DeviceKnown(before, device) ==> after == before + [BoundRow(a, device, now)])
  }

  /** Everything an activation for account row a writes. */
  ghost predicate ActivationWrote(db: Db, after: Db, email: string, device: string, interval: string, plan: string,
                                  a: nat)
  {
    && after.now == db.now && after.payments == db.payments
    && after.accounts ==
         (if EmailKnown(db.accounts, email) then db.accounts else db.accounts + [Account(email, false)])
    && after.subscriptions ==
         (if HasSubscription(db.subscriptions, a) then db.subscriptions
          else db.subscriptions + [Subscription(a, plan, Active, interval, Some(db.now), None, false)])
    && Bound(db.tokens, after.tokens, device, a, db.now)
    && after.issued ==
         db.issued + [Jwt(email, device, plan, interval, db.now / 1000, db.now / 1000 + TWO_DAYS_S, ByActivation, a)]
    && after.audit ==
         db.audit + [AuditRow(ActivationAttempt(email), None, None, db.now)]
                  + [AuditRow(LicenseActivated, Some(a), Some(device), db.now)]
  }

  lemma AdmittedIs(db: Db, email: string)
    ensures var known := Admitted(db, email);
            && known.accounts ==
                 (if EmailKnown(db.accounts, email) then db.accounts else db.accounts + [Account(email, false)])
            && known.audit == db.audit + [AuditRow(ActivationAttempt(email), None, None, db.now)]
            && known == db.(accounts := known.accounts, audit := known.audit)
  {
    AccountFound(db.accounts, email);
  }

  lemma AdmittedWrites(db: Db, known: Db, email: string, device: string, interval: string, plan: string, a: nat)
    requires known == db.(accounts := known.accounts, audit := known.audit)
    requires known.accounts ==
               (if EmailKnown(db.accounts, email) then db.accounts else db.accounts + [Account(email, false)])
    requires known.audit == db.audit + [AuditRow(ActivationAttempt(email), None, None, db.now)]
    ensures ActivationWrote(db, Activated(known, a, email, device, interval, plan), email, device, interval, plan, a)
  {
    ActivatedIs(known, a, email, device, interval, plan);
    UpsertIs(known, a, device);
  }

  lemma {:induction false} ActivationWrites(db: Db, email: string, payment: PaymentCheck, device: string,
                                            interval: string, a: nat)
    requires Activate(db, email, payment, device, interval).1 == Ok(())
    requires AccountRow(Activate(db, email, payment, device, interval).0.accounts, email, a)
    ensures ActivationWrote(db, Activate(db, email, payment, device, interval).0, email, device, interval,
                            PlanText(interval), a)
    ensures interval == "monthly" || interval == "annual"
  {
    var known := Admitted(db, email);
    ActivateEnds(db, email, payment, device, interval);
    AccountFound(known.accounts, email);
    AdmittedIs(db, email);
    IntervalBuysPlan(interval);
    AdmittedWrites(db, known, email, device, interval, PlanFor(interval).value, a);
  }

  /** After such writes the account's newest row, if any is bound, names this device. */
  lemma NotBoundElsewhereAfter(db: Db, after: Db, email: string, device: string, interval: string, plan: string, a: nat)
    requires LicensingTokens.Sound(db) && !BoundToAnother(db, email, device)
    requires ActivationWrote(db, after, email, device, interval, plan, a) && AccountRow(after.accounts, email, a)
    ensures !BoundToAnother(after, email, device)
  {
    forall t | NewestTokenRow(after.tokens, a, t)
      ensures after.tokens[t].fingerprint in {None, Some(""), Some(device)}
    {
      if DeviceKnown(db.tokens, device) {
        DeviceFound(db.tokens, device);
        var d := FindToken(db.tokens, device).value;
        assert OnlyRowChanged(db.tokens, after.tokens, d, RenewedRow(db.tokens[d], db.now));
        assert NewestTokenRow(db.tokens, a, t);
        if EmailKnown(db.accounts, email) { assert AccountRow(db.accounts, email, a); }
      } else {
        assert after.tokens[|db.tokens|].account == a;
      }
    }
  }

  /** A second round of such writes finds its account, its subscription and its device already there. */
  lemma SecondWrites(db: Db, later: Db, again: Db, email: string, device: string, interval: string, plan: string,
                     a: nat)
    requires ActivationWrote(db, later.(now := db.now), email, device, interval, plan, a)
    requires AccountRow(later.accounts, email, a)
    requires ActivationWrote(later, again, email, device, interval, plan, a)
    ensures RenewsOnly(later, again, device)
  {
    assert EmailKnown(later.accounts, email);
    if s :| NewestSubscriptionRow(db.subscriptions, a, s) {
      assert NewestSubscriptionRow(later.subscriptions, a, s);
    } else {
      assert NewestSubscriptionRow(later.subscriptions, a, |db.subscriptions|);
    }
    DeviceFound(db.tokens, device);
    if DeviceKnown(db.tokens, device) {
      var d := FindToken(db.tokens, device).value;
      assert OnlyRowChanged(db.tokens, later.tokens, d, RenewedRow(db.tokens[d], db.now));
      assert later.tokens[d].fingerprint == Some(device);
    } else {
      assert later.tokens[|db.tokens|].fingerprint == Some(device);
    }
  }

  /** No row of any table is added, and only the device's row changes: it is renewed. */
  ghost predicate RenewsOnly(before: Db, after: Db, device: string) {
    && after.accounts == before.accounts && after.subscriptions == before.subscriptions
    && DeviceKnown(before.tokens, device)
    && forall t :: DeviceRow(before.tokens, device, t) ==>
         OnlyRowChanged(before.tokens, after.tokens, t, RenewedRow(before.tokens[t], before.now))
  }

  lemma ActivatedOnce(db: Db, email: string, payment: PaymentCheck, device: string, interval: string, later: Db)
    requires LicensingTokens.Sound(db)
    requires var (after, answer) := Activate(db, email, payment, device, interval);
             answer == Ok(()) && later == after.(now := later.now) && |Attempts(later, email)| < 5
    ensures var (again, answer) := Activate(later, email, payment, device, interval);
            answer == Ok(()) && RenewsOnly(later, again, device)
  {
    var after := Activate(db, email, payment, device, interval).0;
    LicensingTokens.ActivateKeeps(db, email, payment, device, interval);
    assert LicensingTokens.Sound(later);
    ActivateEnds(db, email, payment, device, interval);
    BindingGate(db, email, device);
    AccountFound(after.accounts, email);
    var a := FindAccount(after.accounts, email).value;
    ActivationWrites(db, email, payment, device, interval, a);
    NotBoundElsewhereAfter(db, after, email, device, interval, PlanText(interval), a);
    assert BoundToAnother(later, email, device) == BoundToAnother(after, email, device);
    ActivationAnswers(later, email, payment, device, interval);
    AgainRenews(db, later, email, payment, device, interval, a);
  }

  lemma AgainRenews(db: Db, later: Db, email: string, payment: PaymentCheck, device: string, interval: string, a: nat)
    requires ActivationWrote(db, later.(now := db.now), email, device, interval, PlanText(interval), a)
    requires AccountRow(later.accounts, email, a)
    requires Activate(later, email, payment, device, interval).1 == Ok(())
    ensures RenewsOnly(later, Activate(later, email, payment, device, interval).0, device)
  {
    var again := Activate(later, email, payment, device, interval).0;
    ActivateEnds(later, email, payment, device, interval);
    AccountFound(later.accounts, email);
    assert EmailKnown(later.accounts, email);
    assert again.accounts == later.accounts;
    ActivationWrites(later, email, payment, device, interval, a);
    SecondWrites(db, later, again, email, device, interval, PlanText(interval), a);
  }

  /**
   * In every run, activating again on the same device, any time later and within
   * the rate limit, succeeds again, adds no row and only renews the device's.
   */
  lemma {:induction false} ActivatingAgainRenews(ops: seq<Op>, email: string, payment: PaymentCheck, device: string,
                                                 interval: string, later: Db)
    requires var (after, answer) := Activate(Run(EMPTY_DB, ops), email, payment, device, interval);
             answer == Ok(()) && later == after.(now := later.now) && |Attempts(later, email)| < 5
    ensures var (again, answer) := Activate(later, email, payment, device, interval);
            answer == Ok(()) && RenewsOnly(later, again, device)
  {
    LicensingTokens.RunKeepsSound(ops);
    ActivatedOnce(Run(EMPTY_DB, ops), email, payment, device, interval, later);
  }

  // ---- Releasing a device ---------------------------------------------------------------

  /** The row is unbound and revoked now; who owns it and when it was issued stay. */
  function ReleasedRow(t: Token, now: nat): Token {
    Token(t.account, None, None, t.issuedAt, t.expiresAt, Some(now))
  }

  lemma {:induction false} DeactivationAnswers(db: Db, device: string)
    requires device != ""
    ensures var (after, answer) := Deactivate(db, device);
            && (answer == Ok(()) <==> DeviceKnown(db.tokens, device))
            && (answer == Err(LicenseInvalid) <==> !DeviceKnown(db.tokens, device))
            && (!DeviceKnown(db.tokens, device) ==> after == db)
            && forall t :: DeviceRow(db.tokens, device, t) ==>
                 && OnlyRowChanged(db.tokens, after.tokens, t, ReleasedRow(db.tokens[t], db.now))
                 && after == db.(tokens := after.tokens,
                      audit := db.audit
                        + [AuditRow(LicenseDeactivated, Some(db.tokens[t].account), Some(device), db.now)])
  {
    DeviceFound(db.tokens, device);
  }

  lemma {:induction false} ResetAnswers(db: Db, email: string, reason: string, a: nat)
    requires email != "" && AccountRow(db.accounts, email, a)
    requires exists c :: c in reason && !IsSpace(c)
    ensures var (after, answer) := ResetBinding(db, email, reason);
            && (answer == Ok(()) <==> exists t :: NewestTokenRow(db.tokens, a, t))
            && (answer == Err(NotFound) <==> forall t :: !NewestTokenRow(db.tokens, a, t))
            && forall t :: NewestTokenRow(db.tokens, a, t) ==>
                 && OnlyRowChanged(db.tokens, after.tokens, t, ReleasedRow(db.tokens[t], db.now))
                 && after == db.(tokens := after.tokens,
                      audit := db.audit + [AuditRow(BindingReset(reason), Some(a), None, db.now)])
  {
    AccountFound(db.accounts, email);
    NewestTokenFound(db.tokens, a);
    var t := NewestToken(db.tokens, a);
    if t.Some? { assert NewestTokenRow(db.tokens, a, t.value); }
  }

  lemma ResetRefusals(db: Db, email: string, reason: string)
    ensures (email == "" || forall c :: c in reason ==> IsSpace(c)) ==>
              ResetBinding(db, email, reason) == (db, Err(ValidationError))
    ensures email != "" && (exists c :: c in reason && !IsSpace(c)) && !EmailKnown(db.accounts, email) ==>
              ResetBinding(db, email, reason) == (db, Err(NotFound))
  {
    AccountFound(db.accounts, email);
  }

  // ---- Reissue ----------------------------------------------------------------------------

  /** A row of another account is bound to the device. */
  ghost predicate HeldByOther(db: Db, device: string, a: nat) {
    exists t :: DeviceRow(db.tokens, device, t) && db.tokens[t].account != a
  }

  /** The device's row is this account's, but the account has a newer one. */
  ghost predicate HeldByOlder(db: Db, device: string, a: nat) {
    exists t :: DeviceRow(db.tokens, device, t) && db.tokens[t].account == a && !NewestTokenRow(db.tokens, a, t)
  }

  /** The answer of a reissue for an account's row, guard by guard. */
  lemma {:induction false} ReissueAnswers(db: Db, email: string, device: string, reason: string, a: nat)
    requires email != "" && device != "" && AccountRow(db.accounts, email, a)
    requires exists c :: c in reason && !IsSpace(c)
    ensures var answer := Reissue(db, email, device, reason).1;
            && (answer == Err(DeviceAlreadyBound) <==> HeldByOther(db, device, a))
            && (answer == Err(LicenseInvalid) <==> !HeldByOther(db, device, a) && !Entitled(db.subscriptions, a))
            && (answer == Err(ConstraintViolation) <==> HeldByOlder(db, device, a) && Entitled(db.subscriptions, a))
            && (answer == Ok(()) <==>
                  !HeldByOther(db, device, a) && !HeldByOlder(db, device, a) && Entitled(db.subscriptions, a))
  {
    AccountFound(db.accounts, email);
    DeviceFound(db.tokens, device);
    NewestTokenFound(db.tokens, a);
    NewestSubscriptionFound(db.subscriptions, a);
    var t := FindToken(db.tokens, device);
    if t.Some? { assert DeviceRow(db.tokens, device, t.value); }
  }

  /** What it writes: the account's newest row is rebound from scratch, or a first one is added. */
  lemma {:induction false} ReissueWrites(db: Db, email: string, device: string, reason: string, a: nat, s: nat)
    requires AccountRow(db.accounts, email, a) && NewestSubscriptionRow(db.subscriptions, a, s)
    requires Reissue(db, email, device, reason).1 == Ok(())
    ensures var after := Reissue(db, email, device, reason).0;
            var bound := BoundRow(a, device, db.now);
            && (forall t :: NewestTokenRow(db.tokens, a, t) ==> OnlyRowChanged(db.tokens, after.tokens, t, bound))
            && ((forall t :: !NewestTokenRow(db.tokens, a, t)) ==> after.tokens == db.tokens + [bound])
            && after == db.(tokens := after.tokens,
                 issued := db.issued + [Jwt(email, device, db.subscriptions[s].plan, db.subscriptions[s].interval,
                                            db.now / 1000, db.now / 1000 + TWO_DAYS_S, ByReissue, a)],
                 audit := db.audit + [AuditRow(TokenReissued(reason), Some(a), Some(device), db.now)])
  {
    AccountFound(db.accounts, email);
    NewestTokenFound(db.tokens, a);
    NewestSubscriptionFound(db.subscriptions, a);
    var t := NewestToken(db.tokens, a);
    if t.Some? { assert NewestTokenRow(db.tokens, a, t.value); }
  }

  // ---- Trials --------------------------------------------------------------------------------

  /** The device is bound to an account whose newest subscription is past its trial. */
  ghost predicate PaidBefore(db: Db, device: string) {
    exists t, s ::
      && DeviceRow(db.tokens, device, t) && NewestSubscriptionRow(db.subscriptions, db.tokens[t].account, s)
      && db.subscriptions[s].status != Trialing
  }

  ghost predicate DeviceHadTrial(db: Db, device: string) {
    exists i :: 0 <= i < |db.audit| && db.audit[i].kind == TrialStarted && db.audit[i].device == Some(device)
  }

  ghost predicate EmailHadTrial(db: Db, email: string) {
    exists a :: AccountRow(db.accounts, email, a) && db.accounts[a].trialUsed
  }

  /** The four outcomes of the trial guard, in its order: device before e-mail. */
  lemma {:induction false} TrialGuardDecides(db: Db, email: string, device: string)
    ensures var decision := Decide(db, email, device);
            && (decision.RecognizedReturningDevice? <==> PaidBefore(db, device))
            && (decision == BlockedDeviceReused <==> !PaidBefore(db, device) && DeviceHadTrial(db, device))
            && (decision == BlockedEmailReused <==>
                  !PaidBefore(db, device) && !DeviceHadTrial(db, device) && EmailHadTrial(db, email))
            && (decision == AllowNewTrial <==>
                  !PaidBefore(db, device) && !DeviceHadTrial(db, device) && !EmailHadTrial(db, email))
  {
    AccountFound(db.accounts, email);
    DeviceFound(db.tokens, device);
    var t := FindToken(db.tokens, device);
    if t.Some? {
      NewestSubscriptionFound(db.subscriptions, db.tokens[t.value].account);
      var s := NewestSubscription(db.subscriptions, db.tokens[t.value].account);
      assert DeviceRow(db.tokens, device, t.value);
      if s.Some? { assert NewestSubscriptionRow(db.subscriptions, db.tokens[t.value].account, s.value); }
    }
    var a := FindAccount(db.accounts, email);
    if a.Some? { assert AccountRow(db.accounts, email, a.value); }
  }

  /** What a recognized device gets: a token for the subscription behind its binding, and one log row. */
  lemma {:induction false} RecognitionWrites(db: Db, email: string, device: string, t: nat, s: nat)
    requires email != "" && device != ""
    requires DeviceRow(db.tokens, device, t) && NewestSubscriptionRow(db.subscriptions, db.tokens[t].account, s)
    requires db.subscriptions[s].status != Trialing
    ensures var sub := db.subscriptions[s];
            StartTrial(db, email, device) ==
            (db.(issued := db.issued + [Jwt(email, device, sub.plan, sub.interval, db.now / 1000,
                                            db.now / 1000 + TWO_DAYS_S, ByReturningDevice, db.tokens[t].account)],
                 audit := db.audit + [AuditRow(TrialGuard(RecognizedReturningDevice(sub.status)), None, Some(device),
                                               db.now)]),
             Ok(()))
  {
    DeviceFound(db.tokens, device);
    NewestSubscriptionFound(db.subscriptions, db.tokens[t].account);
  }

  /** A blocked request is refused and changes only the log. */
  lemma {:induction false} BlockedTrialAnswers(db: Db, email: string, device: string)
    requires email != "" && device != "" && !PaidBefore(db, device)
    requires DeviceHadTrial(db, device) || EmailHadTrial(db, email)
    ensures var decision := if DeviceHadTrial(db, device) then BlockedDeviceReused else BlockedEmailReused;
            StartTrial(db, email, device) ==
            (db.(audit := db.audit + [AuditRow(TrialGuard(decision), None, Some(device), db.now)]),
             Err(ValidationError))
  {
    TrialGuardDecides(db, email, device);
  }

  /** Everything a granted trial writes, for account row a. */
  ghost predicate TrialWrote(db: Db, after: Db, email: string, device: string, a: nat) {
    && after.now == db.now && after.payments == db.payments
    && after.accounts ==
         (if EmailKnown(db.accounts, email) && a < |db.accounts| then db.accounts[a := Account(email, true)]
          else db.accounts + [Account(email, true)])
    && after.subscriptions ==
         db.subscriptions + [Subscription(a, "desktop_pro_monthly", Trialing, "monthly", Some(db.now),
                                          Some(db.now + FOURTEEN_DAYS_MS), false)]
    && after.tokens == db.tokens + [BoundRow(a, device, db.now)]
    && after.audit == db.audit + [AuditRow(TrialStarted, Some(a), Some(device), db.now)]
    && after.issued ==
         db.issued + [Jwt(email, device, "desktop_pro_monthly", "monthly", db.now / 1000,
                          db.now / 1000 + TWO_DAYS_S, ByTrial, a)]
  }

  lemma TrialCompletedWrites(db: Db, email: string, device: string, a: nat)
    requires if EmailKnown(db.accounts, email) then AccountRow(db.accounts, email, a) else a == |db.accounts|
    ensures TrialWrote(db, TrialCompleted(db, email, device), email, device, a)
  {
    TrialCompletedIs(db, email, device);
    AdmittedAccount(db, email, a);
    MarkedAccount(db, email, a);
  }

  /** What an allowed trial on a free device writes, table by table. */
  lemma {:induction false} TrialWrites(db: Db, email: string, device: string, a: nat)
    requires email != "" && device != ""
    requires !DeviceKnown(db.tokens, device) && !DeviceHadTrial(db, device) && !EmailHadTrial(db, email)
    requires if EmailKnown(db.accounts, email) then AccountRow(db.accounts, email, a) else a == |db.accounts|
    ensures var (after, answer) := StartTrial(db, email, device);
            answer == Ok(()) && TrialWrote(db, after, email, device, a)
  {
    DeviceFound(db.tokens, device);
    TrialGuardDecides(db, email, device);
    StartTrialEnds(db, email, device);
    TrialCompletedWrites(db, email, device, a);
  }

  lemma MarkedAccount(db: Db, email: string, a: nat)
    requires if EmailKnown(db.accounts, email) then AccountRow(db.accounts, email, a) else a == |db.accounts|
    ensures var accounts := WithAccount(db, email).accounts;
            && a < |accounts|
            && accounts[a := accounts[a].(trialUsed := true)] ==
               if EmailKnown(db.accounts, email) then db.accounts[a := Account(email, true)]
               else db.accounts + [Account(email, true)]
  {
    AdmittedAccount(db, email, a);
    var accounts := WithAccount(db, email).accounts;
    assert accounts[a].(trialUsed := true) == Account(email, true);
    if !EmailKnown(db.accounts, email) {
      assert accounts[a := Account(email, true)] == db.accounts + [Account(email, true)];
    }
  }

  lemma AdmittedAccount(db: Db, email: string, a: nat)
    requires if EmailKnown(db.accounts, email) then AccountRow(db.accounts, email, a) else a == |db.accounts|
    ensures var accounts := WithAccount(db, email).accounts;
            && FindAccount(accounts, email) == Some(a)
            && accounts == (if EmailKnown(db.accounts, email) then db.accounts
                            else db.accounts + [Account(email, false)])
  {
    AccountFound(db.accounts, email);
    AccountFound(WithAccount(db, email).accounts, email);
    assert AccountRow(WithAccount(db, email).accounts, email, a);
  }

  /** The account and the trialing row, with nothing bound to them yet. */
  ghost predicate TrialLeftOpen(db: Db, after: Db, email: string, a: nat) {
    after == db.(
      accounts := if EmailKnown(db.accounts, email) then db.accounts else db.accounts + [Account(email, false)],
      subscriptions := db.subscriptions
        + [Subscription(a, "desktop_pro_monthly", Trialing, "monthly", Some(db.now),
                        Some(db.now + FOURTEEN_DAYS_MS), false)])
  }

  lemma TrialOpenedIs(db: Db, email: string, a: nat)
    requires if EmailKnown(db.accounts, email) then AccountRow(db.accounts, email, a) else a == |db.accounts|
    ensures TrialLeftOpen(db, TrialOpened(db, email), email, a)
  {
    AdmittedAccount(db, email, a);
  }

  /** An allowed trial on a device that is still bound stops after the account and the trialing row. */
  lemma {:induction false} MidwayTrialWrites(db: Db, email: string, device: string, a: nat)
    requires email != "" && device != ""
    requires DeviceKnown(db.tokens, device) && !PaidBefore(db, device)
    requires !DeviceHadTrial(db, device) && !EmailHadTrial(db, email)
    requires if EmailKnown(db.accounts, email) then AccountRow(db.accounts, email, a) else a == |db.accounts|
    ensures var (after, answer) := StartTrial(db, email, device);
            answer == Err(ConstraintViolation) && TrialLeftOpen(db, after, email, a)
  {
    DeviceFound(db.tokens, device);
    TrialGuardDecides(db, email, device);
    TrialOpenedIs(db, email, a);
  }

  // ---- Refresh ---------------------------------------------------------------------------------

  /** The answer of a refresh, guard by guard. */
  lemma {:induction false} RefreshAnswers(db: Db, claims: Option<Jwt>, device: string)
    requires device != ""
    ensures var (after, answer) := Refresh(db, claims, device);
            && (answer == Err(InvalidJwt) <==> claims.None?)
            && (claims.None? ==> after == db.(audit := db.audit
                                    + [AuditRow(JwtVerificationFailed, None, Some(device), db.now)]))
            && (claims.Some? ==>
                  && (answer == Err(DeviceMismatch) <==> claims.value.device != device)
                  && (answer == Ok(()) <==>
                        && claims.value.device == device
                        && db.now <= claims.value.expiresAt * 1000 + TWO_DAYS_MS
                        && exists t ::
                             DeviceRow(db.tokens, device, t) && Entitled(db.subscriptions, db.tokens[t].account))
                  && (answer.Err? ==> after == db && answer.error in {DeviceMismatch, LicenseInvalid}))
  {
    DeviceFound(db.tokens, device);
    var t := FindToken(db.tokens, device);
    if t.Some? {
      NewestSubscriptionFound(db.subscriptions, db.tokens[t.value].account);
      assert DeviceRow(db.tokens, device, t.value);
    }
  }

  lemma {:induction false} RefreshWrites(db: Db, j: Jwt, device: string, t: nat, s: nat)
    requires Refresh(db, Some(j), device).1 == Ok(())
    requires DeviceRow(db.tokens, device, t) && NewestSubscriptionRow(db.subscriptions, db.tokens[t].account, s)
    ensures Refresh(db, Some(j), device).0 ==
            db.(issued := db.issued + [Jwt(j.sub, device, db.subscriptions[s].plan, db.subscriptions[s].interval,
                                           db.now / 1000, db.now / 1000 + TWO_DAYS_S, ByRefresh, db.tokens[t].account)])
  {
    DeviceFound(db.tokens, device);
    NewestSubscriptionFound(db.subscriptions, db.tokens[t].account);
  }

  // ---- Billing -----------------------------------------------------------------------------------

  lemma {:induction false} CancelAnswers(db: Db, account: nat, atPeriodEnd: Option<bool>)
    ensures var (after, answer) := Cancel(db, account, atPeriodEnd);
            && (answer == Ok(()) <==> exists s :: NewestSubscriptionRow(db.subscriptions, account, s))
            && (answer.Err? ==> after == db && answer.error == NotFound)
            && forall s :: NewestSubscriptionRow(db.subscriptions, account, s) ==>
                 var was, immediate := db.subscriptions[s], atPeriodEnd == Some(false);
                 && OnlyRowChanged(db.subscriptions, after.subscriptions, s,
                      Subscription(was.account, was.plan, if immediate then Canceled else was.status, was.interval,
                                   was.periodStart, was.periodEnd, !immediate))
                 && after == db.(subscriptions := after.subscriptions,
                      audit := db.audit + [AuditRow(SubscriptionCancelled(!immediate), Some(account), None, db.now)])
  {
    NewestSubscriptionFound(db.subscriptions, account);
    var s := NewestSubscription(db.subscriptions, account);
    if s.Some? { assert NewestSubscriptionRow(db.subscriptions, account, s.value); }
  }

  lemma {:induction false} ReactivateAnswers(db: Db, account: nat, s: nat)
    requires NewestSubscriptionRow(db.subscriptions, account, s)
    ensures var (after, answer) := Reactivate(db, account);
            var was := db.subscriptions[s];
            && (answer == Ok(()) <==> was.periodEnd == None || db.now <= was.periodEnd.value)
            && (answer.Err? ==> after == db && answer.error == ValidationError)
            && (answer == Ok(()) ==>
                 && OnlyRowChanged(db.subscriptions, after.subscriptions, s,
                      Subscription(was.account, was.plan, was.status, was.interval, was.periodStart, was.periodEnd,
                                   false))
                 && after == db.(subscriptions := after.subscriptions,
                      audit := db.audit + [AuditRow(SubscriptionReactivated, Some(account), None, db.now)]))
  {
    NewestSubscriptionFound(db.subscriptions, account);
  }

  /** The account's newest record that holds a payment names one. */
  ghost predicate Charged(payments: seq<PaymentRecord>, account: nat) {
    exists p ::
      && 0 <= p < |payments| && payments[p].account == account
      && payments[p].remotePayment.Some? && payments[p].remotePayment.value != ""
      && forall q :: p < q < |payments| && payments[q].account == account ==> payments[q].remotePayment == None
  }

  lemma ChargeFound(payments: seq<PaymentRecord>, account: nat)
    ensures Charged(payments, account) <==>
              ChargeOf(payments, account).Some? && payments[ChargeOf(payments, account).value].remotePayment != Some("")
  {
    var c := ChargeOf(payments, account);
    assert forall q :: 0 <= q < |payments| ==>
             (IsCharge(payments[q], account) <==> payments[q].account == account && payments[q].remotePayment.Some?);
    if c.Some? && payments[c.value].remotePayment.value != "" {
      forall q | c.value < q < |payments| && payments[q].account == account ensures payments[q].remotePayment == None {
        assert !IsCharge(payments[q], account);
      }
    }
  }

  lemma {:induction false} RefundAnswers(db: Db, account: nat, reason: string, refunded: bool)
    requires reason != ""
    ensures var (after, answer) := Refund(db, account, reason, refunded);
            var found := account < |db.accounts| && Charged(db.payments, account)
                         && exists s :: NewestSubscriptionRow(db.subscriptions, account, s);
            && (answer == Err(NotFound) <==> !found)
            && (answer == Err(RefundFailed) <==> found && !refunded)
            && (answer == Ok(()) <==> found && refunded)
            && (answer.Err? ==> after == db)
            && (answer == Ok(()) ==> forall s :: NewestSubscriptionRow(db.subscriptions, account, s) ==>
                 var was := db.subscriptions[s];
                 && OnlyRowChanged(db.subscriptions, after.subscriptions, s,
                      Subscription(was.account, was.plan, Canceled, was.interval, was.periodStart, was.periodEnd,
                                   was.cancelAtPeriodEnd))
                 && after == db.(subscriptions := after.subscriptions,
                      audit := db.audit + [AuditRow(RefundIssued(reason), Some(account), None, db.now)]))
  {
    ChargeFound(db.payments, account);
    NewestSubscriptionFound(db.subscriptions, account);
    var s := NewestSubscription(db.subscriptions, account);
    if s.Some? { assert NewestSubscriptionRow(db.subscriptions, account, s.value); }
  }

  // ---- Reconciliation, in the provider's words ----------------------------------------------

  ghost predicate RecordRow(payments: seq<PaymentRecord>, row: nat, p: int) {
    && 0 <= p < |payments| && payments[p].subscription == Some(row)
    && forall q :: p < q < |payments| ==> payments[q].subscription != Some(row)
  }

  /** The provider's word on a row the job looks at: its newest record names an id that can be fetched. */
  ghost predicate WordFor(db: Db, remote: map<string, string>, row: nat, word: string) {
    && row < |db.subscriptions| && db.subscriptions[row].status in {Active, PastDue}
    && exists p ::
         && RecordRow(db.payments, row, p) && db.payments[p].remoteSubscription.Some?
         && db.payments[p].remoteSubscription.value != "" && db.payments[p].remoteSubscription.value in remote
         && remote[db.payments[p].remoteSubscription.value] == word
  }

  lemma WordDecides(db: Db, remote: map<string, string>, row: nat, word: string)
    requires WordFor(db, remote, row, word)
    ensures Expected(db.payments, row, remote) == LocalStatus(word)
  {
    var p :| && RecordRow(db.payments, row, p) && db.payments[p].remoteSubscription.Some?
             && db.payments[p].remoteSubscription.value != "" && db.payments[p].remoteSubscription.value in remote
             && remote[db.payments[p].remoteSubscription.value] == word;
    assert RecordFor(db.payments, row) == Some(p);
  }

  lemma NoWordNoStatus(db: Db, remote: map<string, string>, row: nat)
    requires row < |db.subscriptions| && db.subscriptions[row].status in {Active, PastDue}
    requires forall word :: !WordFor(db, remote, row, word)
    ensures Expected(db.payments, row, remote).None?
  {
    var r := RecordFor(db.payments, row);
    if r.Some? && db.payments[r.value].remoteSubscription.Some? {
      var id := db.payments[r.value].remoteSubscription.value;
      assert RecordRow(db.payments, row, r.value);
      if id != "" && id in remote {
        assert WordFor(db, remote, row, remote[id]);
      }
    }
  }

  /** Where a row ends: as the provider says, in its words, or where it was. */
  lemma {:induction false} ReconciliationFollowsWords(db: Db, remote: map<string, string>, row: nat)
    requires row < |db.subscriptions|
    ensures var was, ends := db.subscriptions[row], Reconcile(db, remote).subscriptions[row];
            && ends == was.(status := ends.status)
            && (WordFor(db, remote, row, "active") ==> ends.status == Active)
            && (WordFor(db, remote, row, "halted") ==> ends.status == PastDue)
            && (WordFor(db, remote, row, "cancelled") || WordFor(db, remote, row, "completed") ==>
                  ends.status == Canceled)
            && ((forall word :: WordFor(db, remote, row, word) ==>
                   word !in {"active", "halted", "cancelled", "completed"}) ==> ends == was)
  {
    LicensingSubscriptions.ReconcileRows(db, |db.subscriptions|, remote, row);
    if word :| WordFor(db, remote, row, word) {
      WordDecides(db, remote, row, word);
      forall other | WordFor(db, remote, row, other) ensures other == word {
        OneWord(db, remote, row, word, other);
      }
    } else if db.subscriptions[row].status in {Active, PastDue} {
      NoWordNoStatus(db, remote, row);
    }
  }

  lemma OneWord(db: Db, remote: map<string, string>, row: nat, word: string, other: string)
    requires WordFor(db, remote, row, word) && WordFor(db, remote, row, other)
    ensures word == other
  {
  }

  /**
   * What that means for a device bound to the row's account, when the row is the
   * account's newest: a current token is refused exactly for an ended subscription.
   */
  lemma {:induction false} ReconciliationDecidesAccess(db: Db, remote: map<string, string>, row: nat, word: string,
                                                       j: Jwt, t: nat)
    requires WordFor(db, remote, row, word)
    requires j.device != "" && db.now <= j.expiresAt * 1000 + TWO_DAYS_MS && DeviceRow(db.tokens, j.device, t)
    requires NewestSubscriptionRow(db.subscriptions, db.tokens[t].account, row)
    ensures Refresh(Reconcile(db, remote), Some(j), j.device).1 == Ok(())
       <==> word != "cancelled" && word != "completed"
  {
    var after := Reconcile(db, remote);
    LicensingTokens.ReconcileKeepsTokens(db, |db.subscriptions|, remote);
    LicensingSubscriptions.ReconcileIssuesNothing(db, |db.subscriptions|, remote);
    WordDecides(db, remote, row, word);
    var owner := db.tokens[t].account;
    forall i | 0 <= i < |db.subscriptions| ensures after.subscriptions[i].account == db.subscriptions[i].account {
      LicensingSubscriptions.ReconcileRows(db, |db.subscriptions|, remote, i);
    }
    assert NewestSubscriptionRow(after.subscriptions, owner, row);
    NewestSubscriptionFound(after.subscriptions, owner);
    DeviceFound(after.tokens, j.device);
    RefreshAnswers(after, Some(j), j.device);
    ReconciliationFollowsWords(db, remote, row);
  }

  // ---- Webhooks -------------------------------------------------------------------------------

  /** An event with this id was processed before. */
  ghost predicate Delivered(db: Db, eventId: string) {
    exists i :: 0 <= i < |db.audit| && db.audit[i].kind == WebhookProcessed(eventId)
  }

  /** The subscription row behind a remote id: the one its newest record names. */
  ghost predicate RowBehind(db: Db, remote: Option<string>, s: int) {
    && 0 <= s < |db.subscriptions| && remote.Some? && remote.value != ""
    && exists p ::
         && 0 <= p < |db.payments|
         && db.payments[p].remoteSubscription == remote && db.payments[p].subscription == Some(s)
         && forall q :: p < q < |db.payments| ==> db.payments[q].remoteSubscription != remote
  }

  lemma RowBehindFound(db: Db, remote: Option<string>)
    ensures forall s :: RowBehind(db, remote, s) <==> IsAt(RowOfRemote(db, remote), s)
  {
    if remote.Some? && remote.value != "" {
      var r := RecordOfRemote(db.payments, remote.value);
      if r.Some? && db.payments[r.value].subscription.Some? {
        assert db.payments[r.value].remoteSubscription == remote;
      }
    }
  }

  /** Only the processed mark is added to the log. */
  function Marked(db: Db, e: Webhook): Db {
    db.(audit := db.audit + [AuditRow(WebhookProcessed(e.id), None, None, db.now)])
  }

  /** A paid invoice makes its row active until the billed end; a failed payment puts it into the grace period. */
  lemma {:induction false} InvoiceWrites(db: Db, e: Webhook)
    requires !Delivered(db, e.id) && (e.kind == InvoicePaid || e.kind == PaymentFailed)
    ensures var (after, answer) := ProcessWebhook(db, e);
            var due := e.kind == PaymentFailed || (e.billingEndS.Some? && e.billingEndS.value != 0);
            && answer == Ok(())
            && (!due || (forall s :: !RowBehind(db, e.remoteSubscription, s)) ==> after == Marked(db, e))
            && (due ==> forall s :: RowBehind(db, e.remoteSubscription, s) ==>
                  var was := db.subscriptions[s];
                  && after == Marked(db, e).(subscriptions := after.subscriptions)
                  && OnlyRowChanged(db.subscriptions, after.subscriptions, s,
                       if e.kind == PaymentFailed then was.(status := PastDue)
                       else was.(status := Active, periodEnd := Some(e.billingEndS.value * 1000))))
  {
    RowBehindFound(db, e.remoteSubscription);
    var s := RowOfRemote(db, e.remoteSubscription);
    if s.Some? { assert RowBehind(db, e.remoteSubscription, s.value); }
  }

  /** A created subscription is recorded for its account and heals the account's newest row. */
  lemma {:induction false} CreationWrites(db: Db, e: Webhook)
    requires !Delivered(db, e.id) && e.kind == SubscriptionCreated
    ensures var (after, answer) := ProcessWebhook(db, e);
            && (e.account == None ==> (after, answer) == (Marked(db, e), Ok(())))
            && (e.account.Some? && e.account.value >= |db.accounts| ==>
                  (after, answer) == (db, Err(ConstraintViolation)))
            && (e.account.Some? && e.account.value < |db.accounts| ==>
                  && answer == Ok(())
                  && (forall s :: NewestSubscriptionRow(db.subscriptions, e.account.value, s) ==>
                        && OnlyRowChanged(db.subscriptions, after.subscriptions, s,
                             db.subscriptions[s].(status := Active))
                        && after == Marked(db, e).(subscriptions := after.subscriptions,
                             payments := db.payments
                               + [PaymentRecord(e.account.value, Some(s), e.remoteSubscription, None)]))
                  && ((forall s :: !NewestSubscriptionRow(db.subscriptions, e.account.value, s)) ==>
                        after == Marked(db, e).(payments := db.payments
                                   + [PaymentRecord(e.account.value, None, e.remoteSubscription, None)])))
  {
    if e.account.Some? {
      NewestSubscriptionFound(db.subscriptions, e.account.value);
      var s := NewestSubscription(db.subscriptions, e.account.value);
      if s.Some? { assert NewestSubscriptionRow(db.subscriptions, e.account.value, s.value); }
    }
  }

  /** A repeated event changes nothing, an unknown one only the log. */
  lemma {:induction false} OtherWebhooksWrite(db: Db, e: Webhook)
    ensures Delivered(db, e.id) ==> ProcessWebhook(db, e) == (db, Ok(()))
    ensures !Delivered(db, e.id) && e.kind == OtherEvent ==> ProcessWebhook(db, e) == (Marked(db, e), Ok(()))
  {
  }
}
