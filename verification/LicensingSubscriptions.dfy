/** How a subscription's status may move, what a cancellation cuts off, and what reconciliation repairs. */
module LicensingSubscriptions {
  import opened Prelude
  import opened LicensingData
  import opened LicensingHandlers

  /** This operation is a webhook, not seen before, that writes this row. */
  predicate Revives(db: Db, op: Op, row: nat) {
    && op.DoWebhook?
    && !WebhookSeen(db.audit, op.event.id)
    && !Refused(db, op.event)
    && Target(db, op.event) == Some(row)
  }

  /** A trialing row only ever becomes canceled, and a canceled row stays so. */
  predicate Winding(before: Status, after: Status) {
    && (before == Canceled ==> after == Canceled)
    && (before == Trialing ==> after == Trialing || after == Canceled)
  }

  /** Rows are appended, never removed, and keep their account. */
  ghost predicate RowsKept(before: Db, after: Db) {
    && |before.subscriptions| <= |after.subscriptions|
    && forall i :: 0 <= i < |before.subscriptions| ==> after.subscriptions[i].account == before.subscriptions[i].account
  }

  ghost predicate StatusesWind(before: Db, after: Db) {
    && RowsKept(before, after)
    && forall i :: 0 <= i < |before.subscriptions| ==>
         Winding(before.subscriptions[i].status, after.subscriptions[i].status)
  }

  lemma {:induction false} ReconcileRows(db: Db, n: nat, remote: map<string, string>, row: nat)
    requires n <= |db.subscriptions| && row < |db.subscriptions|
    ensures ReconciledUpTo(db, n, remote).subscriptions[row] ==
            if row < n && Drifted(db, row, remote)
            then db.subscriptions[row].(status := Expected(db.payments, row, remote).value)
            else db.subscriptions[row]
    ensures ReconciledUpTo(db, n, remote).payments == db.payments
  {
    if n > 0 {
      ReconcileRows(db, n - 1, remote, row);
    }
  }

  lemma ReconcileWinds(db: Db, remote: map<string, string>)
    ensures StatusesWind(db, Reconcile(db, remote))
  {
    forall i | 0 <= i < |db.subscriptions|
      ensures Reconcile(db, remote).subscriptions[i].account == db.subscriptions[i].account
           && Winding(db.subscriptions[i].status, Reconcile(db, remote).subscriptions[i].status)
    {
      ReconcileRows(db, |db.subscriptions|, remote, i);
    }
  }

  lemma AppendingWinds(before: Db, after: Db)
    requires before.subscriptions <= after.subscriptions
    ensures StatusesWind(before, after)
  {
    assert forall i :: 0 <= i < |before.subscriptions| ==> after.subscriptions[i] == before.subscriptions[i];
  }

  lemma ActivateAppends(db: Db, email: string, payment: PaymentCheck, device: string, interval: string)
    ensures db.subscriptions <= Activate(db, email, payment, device, interval).0.subscriptions
  {
    ActivateEnds(db, email, payment, device, interval);
    assert Admitted(db, email).subscriptions == db.subscriptions;
  }

  lemma StartTrialAppends(db: Db, email: string, device: string)
    ensures db.subscriptions <= StartTrial(db, email, device).0.subscriptions
  {
    StartTrialEnds(db, email, device);
    TrialCompletedIs(db, email, device);
    assert WithAccount(db, email).subscriptions == db.subscriptions;
  }

  lemma RewritingWinds(before: Db, after: Db, row: nat)
    requires row < |before.subscriptions| == |after.subscriptions|
    requires after.subscriptions == before.subscriptions[row := after.subscriptions[row]]
    requires after.subscriptions[row].account == before.subscriptions[row].account
    requires Winding(before.subscriptions[row].status, after.subscriptions[row].status)
    ensures StatusesWind(before, after)
  {
  }

  lemma BillingWinds(db: Db, op: Op)
    requires op.DoCancel? || op.DoReactivate? || op.DoRefund?
    ensures StatusesWind(db, Apply(db, op))
  {
    var row := NewestSubscription(db.subscriptions, op.account);
    if Apply(db, op).subscriptions == db.subscriptions {
      AppendingWinds(db, Apply(db, op));
    } else {
      RewritingWinds(db, Apply(db, op), row.value);
    }
  }

  lemma NonWebhooksWind(db: Db, op: Op)
    requires !op.DoWebhook?
    ensures StatusesWind(db, Apply(db, op))
  {
    match op {
      case DoCancel(_, _) => BillingWinds(db, op);
      case DoReactivate(_) => BillingWinds(db, op);
      case DoRefund(_, _, _) => BillingWinds(db, op);
      case DoReconcile(remote) => ReconcileWinds(db, remote);
      case DoActivate(email, payment, device, interval) =>
        ActivateAppends(db, email, payment, device, interval);
        AppendingWinds(db, Apply(db, op));
      case DoStartTrial(email, device) =>
        StartTrialAppends(db, email, device);
        AppendingWinds(db, Apply(db, op));
      case _ => AppendingWinds(db, Apply(db, op));
    }
  }

  /**
   * Under every operation a canceled row stays canceled and a trialing row can
   * only become canceled, except exactly for a fresh webhook that writes the row.
   */
  lemma StatusesWindUnlessWebhook(db: Db, op: Op, row: nat)
    requires row < |db.subscriptions|
    requires db.subscriptions[row].status == Canceled || db.subscriptions[row].status == Trialing
    ensures RowsKept(db, Apply(db, op))
    ensures Winding(db.subscriptions[row].status, Apply(db, op).subscriptions[row].status) <==> !Revives(db, op, row)
  {
    if !op.DoWebhook? {
      NonWebhooksWind(db, op);
    } else if !WebhookSeen(db.audit, op.event.id) && !Refused(db, op.event) {
      WebhookWrites(db, op.event, row);
    }
  }

  lemma WebhookWrites(db: Db, e: Webhook, row: nat)
    requires !Refused(db, e) && row < |db.subscriptions|
    ensures Dispatched(db, e).subscriptions[row] ==
            if Target(db, e) == Some(row) then Written(db.subscriptions[row], e) else db.subscriptions[row]
    ensures Target(db, e).Some? ==> Written(db.subscriptions[row], e).status in {Active, PastDue}
  {
  }

  // ---- Every licence token belongs to an account with a subscription ---------------------

  ghost predicate Subscribed(subscriptions: seq<Subscription>, account: nat) {
    exists i :: 0 <= i < |subscriptions| && subscriptions[i].account == account
  }

  ghost predicate TokensSubscribed(db: Db) {
    forall t :: 0 <= t < |db.tokens| ==> Subscribed(db.subscriptions, db.tokens[t].account)
  }

  /** Tokens keep their accounts, except that some may go to an account with a subscription. */
  ghost predicate TokensStaySubscribed(before: Db, after: Db) {
    && RowsKept(before, after)
    && |before.tokens| <= |after.tokens|
    && forall t :: 0 <= t < |after.tokens| ==>
         || (t < |before.tokens| && after.tokens[t].account == before.tokens[t].account)
         || Subscribed(after.subscriptions, after.tokens[t].account)
  }

  lemma StayingKeepsSubscribed(before: Db, after: Db)
    requires TokensSubscribed(before) && TokensStaySubscribed(before, after)
    ensures TokensSubscribed(after)
  {
    forall t | 0 <= t < |after.tokens| ensures Subscribed(after.subscriptions, after.tokens[t].account) {
      if t < |before.tokens| && after.tokens[t].account == before.tokens[t].account {
        var i :| 0 <= i < |before.subscriptions| && before.subscriptions[i].account == before.tokens[t].account;
        assert after.subscriptions[i].account == after.tokens[t].account;
      }
    }
  }

  lemma {:induction false} ReconcileStays(db: Db, n: nat, remote: map<string, string>)
    requires n <= |db.subscriptions|
    ensures ReconciledUpTo(db, n, remote).tokens == db.tokens
    ensures RowsKept(db, ReconciledUpTo(db, n, remote))
  {
    if n > 0 {
      ReconcileStays(db, n - 1, remote);
    }
  }

  lemma ActivatedStays(db: Db, account: nat, email: string, device: string, interval: string, plan: string)
    ensures TokensStaySubscribed(db, Activated(db, account, email, device, interval, plan))
  {
    var after := Activated(db, account, email, device, interval, plan);
    var s := NewestSubscription(db.subscriptions, account);
    assert Subscribed(after.subscriptions, account) by {
      var i := if s.Some? then s.value else |db.subscriptions|;
      assert after.subscriptions[i].account == account;
    }
  }

  lemma ActivateStays(db: Db, email: string, payment: PaymentCheck, device: string, interval: string)
    ensures TokensStaySubscribed(db, Activate(db, email, payment, device, interval).0)
  {
    ActivateEnds(db, email, payment, device, interval);
    var known := Admitted(db, email);
    assert known.subscriptions == db.subscriptions && known.tokens == db.tokens;
    var account := FindAccount(known.accounts, email).value;
    if Activate(db, email, payment, device, interval).1.Ok? {
      ActivatedStays(known, account, email, device, interval, PlanFor(interval).value);
    }
  }

  lemma ReissueStays(db: Db, email: string, device: string, reason: string)
    ensures TokensStaySubscribed(db, Reissue(db, email, device, reason).0)
  {
    var account := FindAccount(db.accounts, email);
    if account.Some? && NewestSubscription(db.subscriptions, account.value).Some? {
      assert db.subscriptions[NewestSubscription(db.subscriptions, account.value).value].account == account.value;
    }
  }

  lemma StartTrialStays(db: Db, email: string, device: string)
    ensures TokensStaySubscribed(db, StartTrial(db, email, device).0)
  {
    StartTrialEnds(db, email, device);
    TrialCompletedIs(db, email, device);
    var completed := TrialCompleted(db, email, device);
    var account := FindAccount(WithAccount(db, email).accounts, email).value;
    assert completed.subscriptions[|db.subscriptions|].account == account;
    assert Subscribed(completed.subscriptions, account);
    assert TrialOpened(db, email).tokens == db.tokens && RowsKept(db, TrialOpened(db, email));
  }

  lemma UnbindStays(db: Db, op: Op)
    requires op.DoDeactivate? || op.DoResetBinding?
    ensures TokensStaySubscribed(db, Apply(db, op))
  {
  }

  /** Requests that leave the token table alone and neither add, drop nor reassign a subscription row. */
  lemma RowsStay(db: Db, op: Op)
    requires op.DoRefresh? || op.DoCancel? || op.DoReactivate? || op.DoRefund? || op.DoWebhook? || op.Wait?
    ensures Apply(db, op).tokens == db.tokens && RowsKept(db, Apply(db, op))
  {
  }

  lemma {:induction false} ApplyKeepsSubscribed(db: Db, op: Op)
    requires TokensSubscribed(db)
    ensures TokensSubscribed(Apply(db, op))
  {
    match op {
      case DoActivate(email, payment, device, interval) => ActivateStays(db, email, payment, device, interval);
      case DoReissue(email, device, reason) => ReissueStays(db, email, device, reason);
      case DoStartTrial(email, device) => StartTrialStays(db, email, device);
      case DoReconcile(remote) => ReconcileStays(db, |db.subscriptions|, remote);
      case DoDeactivate(_) => UnbindStays(db, op);
      case DoResetBinding(_, _) => UnbindStays(db, op);
      case _ => RowsStay(db, op);
    }
    StayingKeepsSubscribed(db, Apply(db, op));
  }

  /** In every run, every licence token belongs to an account that has a subscription row. */
  lemma {:induction false} RunKeepsSubscribed(ops: seq<Op>)
    ensures TokensSubscribed(Run(EMPTY_DB, ops))
  {
    if ops != [] {
      RunKeepsSubscribed(ops[..|ops| - 1]);
      ApplyKeepsSubscribed(Run(EMPTY_DB, ops[..|ops| - 1]), ops[|ops| - 1]);
    }
  }

  // ---- Entitlement after a cancellation -------------------------------------------------

  /** Tokens issued on the strength of a live subscription. */
  predicate Gated(j: Jwt) {
    j.issuer == ByRefresh || j.issuer == ByReissue
  }

  /** Every such token of this account stops being valid by the given time. */
  ghost predicate ExpireBy(issued: seq<Jwt>, account: nat, atMs: int) {
    forall i :: 0 <= i < |issued| && Gated(issued[i]) && issued[i].account == account ==>
      issued[i].expiresAt * 1000 <= atMs
  }

  predicate LivesTwoDays(j: Jwt) {
    j.expiresAt == j.issuedAt + JWT_LIFETIME_S
  }

  /** Tokens live 48 hours and are never dated ahead of the clock. */
  ghost predicate Dated(db: Db) {
    forall i :: 0 <= i < |db.issued| ==>
      LivesTwoDays(db.issued[i]) && db.issued[i].issuedAt * 1000 <= db.now
  }

  /** The account's newest subscription is this canceled row. */
  predicate CutOff(db: Db, account: nat, row: nat) {
    && NewestSubscription(db.subscriptions, account) == Some(row)
    && db.subscriptions[row].status == Canceled
  }

  /** What one operation adds to the issued tokens. */
  ghost predicate IssuesSoundly(before: Db, after: Db) {
    && before.issued <= after.issued
    && before.now <= after.now
    && forall i :: |before.issued| <= i < |after.issued| ==>
         var j := after.issued[i];
         && LivesTwoDays(j) && j.issuedAt * 1000 <= before.now
         && (Gated(j) ==>
               var s := NewestSubscription(before.subscriptions, j.account);
               s.Some? && Refreshable(before.subscriptions[s.value].status))
  }

  lemma {:induction false} ReconcileIssuesNothing(db: Db, n: nat, remote: map<string, string>)
    requires n <= |db.subscriptions|
    ensures ReconciledUpTo(db, n, remote).issued == db.issued && ReconciledUpTo(db, n, remote).now == db.now
  {
    if n > 0 {
      ReconcileIssuesNothing(db, n - 1, remote);
    }
  }

  lemma ActivateIssues(db: Db, email: string, payment: PaymentCheck, device: string, interval: string)
    ensures IssuesSoundly(db, Activate(db, email, payment, device, interval).0)
  {
    ActivateEnds(db, email, payment, device, interval);
    var known := Admitted(db, email);
    assert known.issued == db.issued && known.now == db.now;
  }

  /** The token a trial request hands out, if it succeeds. */
  function TrialToken(db: Db, email: string, device: string): Option<Jwt> {
    if email == "" || device == "" then None
    else match Decide(db, email, device)
         case RecognizedReturningDevice(_) =>
           var account := db.tokens[FindToken(db.tokens, device).value].account;
           var s := db.subscriptions[NewestSubscription(db.subscriptions, account).value];
           Some(Sign(db, email, device, s.plan, s.interval, ByReturningDevice, account))
         case AllowNewTrial =>
           if FindToken(db.tokens, device).Some? then None
           else
             var account := FindAccount(WithAccount(db, email).accounts, email).value;
             Some(Sign(db, email, device, MONTHLY_PLAN, "monthly", ByTrial, account))
         case _ => None
  }

  lemma StartTrialIssuesOne(db: Db, email: string, device: string)
    ensures var (after, answer) := StartTrial(db, email, device);
            && after.now == db.now
            && (answer.Ok? <==> TrialToken(db, email, device).Some?)
            && after.issued == db.issued + if answer.Ok? then [TrialToken(db, email, device).value] else []
  {
    StartTrialEnds(db, email, device);
    TrialCompletedIs(db, email, device);
    assert TrialOpened(db, email).issued == db.issued && TrialOpened(db, email).now == db.now;
  }

  lemma StartTrialIssues(db: Db, email: string, device: string)
    ensures IssuesSoundly(db, StartTrial(db, email, device).0)
  {
    StartTrialIssuesOne(db, email, device);
    var j := TrialToken(db, email, device);
    assert j.Some? ==> LivesTwoDays(j.value) && !Gated(j.value) && j.value.issuedAt * 1000 <= db.now;
  }

  lemma {:induction false} ApplyIssuesSoundly(db: Db, op: Op)
    ensures IssuesSoundly(db, Apply(db, op))
  {
    match op {
      case DoActivate(email, payment, device, interval) => ActivateIssues(db, email, payment, device, interval);
      case DoStartTrial(email, device) => StartTrialIssues(db, email, device);
      case DoReconcile(remote) => ReconcileIssuesNothing(db, |db.subscriptions|, remote);
      case _ =>
    }
  }

  lemma ApplyKeepsDated(db: Db, op: Op)
    requires Dated(db)
    ensures Dated(Apply(db, op))
  {
    ApplyIssuesSoundly(db, op);
  }

  lemma {:induction false} RunKeepsDated(ops: seq<Op>)
    ensures Dated(Run(EMPTY_DB, ops))
  {
    if ops != [] {
      RunKeepsDated(ops[..|ops| - 1]);
      ApplyKeepsDated(Run(EMPTY_DB, ops[..|ops| - 1]), ops[|ops| - 1]);
    }
  }

  /** Step k neither adds a subscription row for the account nor lets a fresh webhook write the row. */
  ghost predicate StepLeavesCanceled(db: Db, ops: seq<Op>, account: nat, row: nat, k: nat)
    requires k < |ops|
  {
    && !Revives(Run(db, ops[..k]), ops[k], row)
    && NewestSubscription(Run(db, ops[..k + 1]).subscriptions, account) == Some(row)
  }

  ghost predicate LeftCanceled(db: Db, ops: seq<Op>, account: nat, row: nat) {
    forall k :: 0 <= k < |ops| ==> StepLeavesCanceled(db, ops, account, row, k)
  }

  lemma LeftCanceledFront(db: Db, ops: seq<Op>, account: nat, row: nat)
    requires LeftCanceled(db, ops, account, row) && ops != []
    ensures LeftCanceled(db, ops[..|ops| - 1], account, row)
    ensures !Revives(Run(db, ops[..|ops| - 1]), ops[|ops| - 1], row)
    ensures NewestSubscription(Run(db, ops).subscriptions, account) == Some(row)
  {
    var n := |ops| - 1;
    var front := ops[..n];
    forall k | 0 <= k < n ensures StepLeavesCanceled(db, front, account, row, k) {
      assert StepLeavesCanceled(db, ops, account, row, k);
      assert front[..k] == ops[..k] && front[..k + 1] == ops[..k + 1] && front[k] == ops[k];
    }
    assert StepLeavesCanceled(db, ops, account, row, n);
    assert ops[..n + 1] == ops;
  }

  /** Tokens issued since then on a live subscription went to other accounts. */
  ghost predicate NoneSince(before: Db, after: Db, account: nat) {
    && before.issued <= after.issued
    && forall i :: |before.issued| <= i < |after.issued| && Gated(after.issued[i]) ==>
         after.issued[i].account != account
  }

  lemma CutOffStep(db: Db, op: Op, account: nat, row: nat)
    requires CutOff(db, account, row) && !Revives(db, op, row)
    requires NewestSubscription(Apply(db, op).subscriptions, account) == Some(row)
    ensures CutOff(Apply(db, op), account, row) && NoneSince(db, Apply(db, op), account)
  {
    StatusesWindUnlessWebhook(db, op, row);
    ApplyIssuesSoundly(db, op);
  }

  lemma NoneSinceChains(a: Db, b: Db, c: Db, account: nat)
    requires NoneSince(a, b, account) && NoneSince(b, c, account)
    ensures NoneSince(a, c, account)
  {
    forall i | |a.issued| <= i < |c.issued| && Gated(c.issued[i]) ensures c.issued[i].account != account {
      if i < |b.issued| { assert c.issued[i] == b.issued[i]; }
    }
  }

  lemma {:induction false} CutOffPersists(db: Db, ops: seq<Op>, account: nat, row: nat)
    requires CutOff(db, account, row) && LeftCanceled(db, ops, account, row)
    ensures CutOff(Run(db, ops), account, row) && NoneSince(db, Run(db, ops), account)
  {
    if ops != [] {
      var front := ops[..|ops| - 1];
      LeftCanceledFront(db, ops, account, row);
      CutOffPersists(db, front, account, row);
      CutOffStep(Run(db, front), ops[|ops| - 1], account, row);
      NoneSinceChains(db, Run(db, front), Run(db, ops), account);
    }
  }

  lemma {:induction false} LeftCanceledPrefix(db: Db, ops: seq<Op>, account: nat, row: nat, n: nat)
    requires LeftCanceled(db, ops, account, row) && n <= |ops|
    ensures LeftCanceled(db, ops[..n], account, row)
    decreases |ops|
  {
    if n == |ops| {
      assert ops[..n] == ops;
    } else {
      var front := ops[..|ops| - 1];
      LeftCanceledFront(db, ops, account, row);
      LeftCanceledPrefix(db, front, account, row, n);
      assert front[..n] == ops[..n];
    }
  }

  lemma StillCutOffAfterStep(db: Db, ops: seq<Op>, account: nat, row: nat, k: nat)
    requires k < |ops|
    requires CutOff(Run(db, ops[..k]), account, row) && CutOff(Run(db, ops[..k + 1]), account, row)
    ensures StepLeavesCanceled(db, ops, account, row, k)
  {
    assert ops[..k + 1] == ops[..k] + [ops[k]];
    RunSnoc(db, ops[..k], ops[k]);
    StatusesWindUnlessWebhook(Run(db, ops[..k]), ops[k], row);
  }

  /** The account stays cut off all through a run exactly when its cancellation is left alone. */
  lemma {:induction false} CutOffExactlyWhenLeftAlone(db: Db, ops: seq<Op>, account: nat, row: nat)
    requires CutOff(db, account, row)
    ensures (forall n :: 0 <= n <= |ops| ==> CutOff(Run(db, ops[..n]), account, row))
       <==> LeftCanceled(db, ops, account, row)
  {
    if LeftCanceled(db, ops, account, row) {
      forall n | 0 <= n <= |ops| ensures CutOff(Run(db, ops[..n]), account, row) {
        LeftCanceledPrefix(db, ops, account, row, n);
        CutOffPersists(db, ops[..n], account, row);
      }
    }
    if forall n :: 0 <= n <= |ops| ==> CutOff(Run(db, ops[..n]), account, row) {
      forall k | 0 <= k < |ops| ensures StepLeavesCanceled(db, ops, account, row, k) {
        StillCutOffAfterStep(db, ops, account, row, k);
      }
    }
  }

  /**
   * Once an account's newest subscription is canceled, and while no row is added
   * for it and no fresh webhook revives it, refresh and reissue never succeed
   * for it again, and every token they issued for it has expired 48 hours later.
   */
  lemma {:induction false} CancellationCutsOff(before: seq<Op>, after: seq<Op>, account: nat, row: nat)
    requires CutOff(Run(EMPTY_DB, before), account, row)
    requires LeftCanceled(Run(EMPTY_DB, before), after, account, row)
    ensures var t, db := Run(EMPTY_DB, before), Run(Run(EMPTY_DB, before), after);
            && ExpireBy(db.issued, account, t.now + TOKEN_LIFETIME_MS)
            && (forall claims, device ::
                  (var t := FindToken(db.tokens, device); t.Some? && db.tokens[t.value].account == account) ==>
                    Refresh(db, claims, device).1.Err?)
            && (forall email, device, reason ::
                  FindAccount(db.accounts, email) == Some(account) ==> Reissue(db, email, device, reason).1.Err?)
  {
    var t := Run(EMPTY_DB, before);
    RunKeepsDated(before);
    CutOffPersists(t, after, account, row);
    var db := Run(t, after);
    forall i | 0 <= i < |db.issued| && Gated(db.issued[i]) && db.issued[i].account == account
      ensures db.issued[i].expiresAt * 1000 <= t.now + TOKEN_LIFETIME_MS
    {
      assert i < |t.issued| && db.issued[i] == t.issued[i];
    }
  }

  /**
   * The requests that still issue a token to a cut off account: an activation of
   * its e-mail that passes every gate, a trial request from a device bound to it,
   * and a trial it is still owed.
   */
  predicate StillIssues(db: Db, op: Op, account: nat) {
    match op
    case DoActivate(email, payment, device, interval) =>
      && PassesGates(db, email, payment, device, interval)
      && FindAccount(Admitted(db, email).accounts, email) == Some(account)
    case DoStartTrial(email, device) =>
      && email != "" && device != ""
      && (match Decide(db, email, device)
          case RecognizedReturningDevice(_) =>
            FindToken(db.tokens, device).Some? && db.tokens[FindToken(db.tokens, device).value].account == account
          case AllowNewTrial =>
            FindToken(db.tokens, device).None? && FindAccount(WithAccount(db, email).accounts, email) == Some(account)
          case _ => false)
    case _ => false
  }

  /** Some token is issued for the account on the way. */
  ghost predicate IssuedTo(before: Db, after: Db, account: nat) {
    exists i :: |before.issued| <= i < |after.issued| && after.issued[i].account == account
  }

  lemma IssuedOne(before: Db, after: Db, j: Jwt, account: nat)
    requires after.issued == before.issued + [j]
    ensures IssuedTo(before, after, account) <==> j.account == account
  {
    assert after.issued[|before.issued|] == j;
  }

  lemma ActivateIssuesTo(db: Db, email: string, payment: PaymentCheck, device: string, interval: string, account: nat)
    ensures IssuedTo(db, Activate(db, email, payment, device, interval).0, account)
       <==> StillIssues(db, DoActivate(email, payment, device, interval), account)
  {
    var known := Admitted(db, email);
    ActivateEnds(db, email, payment, device, interval);
    assert known.issued == db.issued;
    var owner := FindAccount(known.accounts, email).value;
    var (after, answer) := Activate(db, email, payment, device, interval);
    if answer.Ok? {
      IssuedOne(db, after, Sign(known, email, device, PlanFor(interval).value, interval, ByActivation, owner), account);
    }
  }

  lemma StartTrialIssuesTo(db: Db, email: string, device: string, account: nat)
    ensures IssuedTo(db, StartTrial(db, email, device).0, account)
       <==> StillIssues(db, DoStartTrial(email, device), account)
  {
    StartTrialIssuesOne(db, email, device);
    if TrialToken(db, email, device).Some? {
      IssuedOne(db, StartTrial(db, email, device).0, TrialToken(db, email, device).value, account);
    }
  }

  lemma RefreshIssuesElsewhere(db: Db, op: Op, account: nat, row: nat)
    requires CutOff(db, account, row) && (op.DoRefresh? || op.DoReissue?)
    ensures !IssuedTo(db, Apply(db, op), account)
  {
  }

  lemma OthersIssueNothing(db: Db, op: Op)
    requires !op.DoActivate? && !op.DoStartTrial? && !op.DoRefresh? && !op.DoReissue?
    ensures Apply(db, op).issued == db.issued
  {
    if op.DoReconcile? {
      ReconcileIssuesNothing(db, |db.subscriptions|, op.remote);
    }
  }

  /** A cut off account is issued a token by exactly those requests. */
  lemma {:induction false} CutOffIssuesExactlyWhen(db: Db, op: Op, account: nat, row: nat)
    requires CutOff(db, account, row)
    ensures IssuedTo(db, Apply(db, op), account) <==> StillIssues(db, op, account)
  {
    match op {
      case DoActivate(email, payment, device, interval) =>
        ActivateIssuesTo(db, email, payment, device, interval, account);
      case DoStartTrial(email, device) => StartTrialIssuesTo(db, email, device, account);
      case DoRefresh(_, _) => RefreshIssuesElsewhere(db, op, account, row);
      case DoReissue(_, _, _) => RefreshIssuesElsewhere(db, op, account, row);
      case _ => OthersIssueNothing(db, op);
    }
  }

  /** In particular every trial request from a device still bound to the account gets a fresh 48 hour token. */
  lemma BoundDeviceKeepsIssuing(db: Db, email: string, device: string, account: nat, row: nat)
    requires CutOff(db, account, row) && email != "" && device != ""
    requires FindToken(db.tokens, device).Some? && db.tokens[FindToken(db.tokens, device).value].account == account
    ensures var (after, answer) := StartTrial(db, email, device);
            && answer.Ok? && IssuedTo(db, after, account)
            && after.issued[|db.issued|].expiresAt == db.now / 1000 + JWT_LIFETIME_S
  {
    StartTrialIssuesTo(db, email, device, account);
  }

  /**
   * An immediate cancellation and an accepted refund both cut the account off:
   * its newest row, and no other, becomes canceled.
   */
  lemma ImmediateEndCutsOff(db: Db, account: nat, op: Op)
    requires (op == DoCancel(account, Some(false)) && Cancel(db, account, Some(false)).1.Ok?)
          || (op.DoRefund? && op.account == account && Refund(db, account, op.reason, op.refunded).1.Ok?)
    ensures var row := NewestSubscription(db.subscriptions, account);
            var after := Apply(db, op);
            && row.Some? && CutOff(after, account, row.value)
            && |after.subscriptions| == |db.subscriptions|
            && (forall i :: 0 <= i < |db.subscriptions| && i != row.value ==>
                  after.subscriptions[i] == db.subscriptions[i])
            && after.tokens == db.tokens && after.accounts == db.accounts && after.issued == db.issued
  {
    var row := NewestSubscription(db.subscriptions, account).value;
    var after := Apply(db, op).subscriptions;
    assert forall i :: 0 <= i < |after| ==> after[i].account == db.subscriptions[i].account;
    assert after[row].account == account;
  }

  /**
   * What reactivation answers does not depend on the status: after an immediate
   * cancellation it reports success exactly while the period is not over, and the
   * row it reports on stays canceled.
   */
  lemma {:induction false} ReactivationOfCanceled(db: Db, account: nat)
    requires NewestSubscription(db.subscriptions, account).Some?
    ensures var row := NewestSubscription(db.subscriptions, account).value;
            var (after, answer) := Reactivate(Cancel(db, account, Some(false)).0, account);
            && (answer.Ok? <==> !PeriodOver(db.subscriptions[row], db.now))
            && CutOff(after, account, row)
  {
    var row := NewestSubscription(db.subscriptions, account).value;
    var canceled := Cancel(db, account, Some(false)).0;
    ImmediateEndCutsOff(db, account, DoCancel(account, Some(false)));
    SameNewest(canceled.subscriptions, Reactivate(canceled, account).0.subscriptions, account);
  }

  predicate PeriodOver(s: Subscription, now: nat) {
    s.periodEnd.Some? && s.periodEnd.value < now
  }

  lemma SameNewest(before: seq<Subscription>, after: seq<Subscription>, account: nat)
    requires |before| == |after| && forall i :: 0 <= i < |before| ==> after[i].account == before[i].account
    ensures NewestSubscription(after, account) == NewestSubscription(before, account)
  {
    var s, s' := NewestSubscription(before, account), NewestSubscription(after, account);
    if s.Some? { assert after[s.value].account == account; }
    if s'.Some? { assert before[s'.value].account == account; }
  }

  /**
   * A successful reactivation restores access exactly when the subscription had
   * not been canceled: a current token of a device bound to the account can be
   * refreshed afterwards if and only if the newest row was not canceled before.
   */
  lemma {:induction false} ReactivationRestoresExactlyWhen(db: Db, account: nat, j: Jwt)
    requires Reactivate(db, account).1.Ok?
    requires && j.device != "" && FindToken(db.tokens, j.device).Some?
             && db.tokens[FindToken(db.tokens, j.device).value].account == account
             && db.now - j.expiresAt * 1000 <= MAX_STALENESS_MS
    ensures var row := NewestSubscription(db.subscriptions, account).value;
            Refresh(Reactivate(db, account).0, Some(j), j.device).1.Ok? <==> db.subscriptions[row].status != Canceled
  {
    SameNewest(db.subscriptions, Reactivate(db, account).0.subscriptions, account);
  }

  /** Within the paid period, reactivating undoes a scheduled cancellation completely. */
  lemma ReactivationUndoesScheduling(db: Db, account: nat)
    requires var row := NewestSubscription(db.subscriptions, account);
             row.Some? && !db.subscriptions[row.value].cancelAtPeriodEnd
    ensures var row := NewestSubscription(db.subscriptions, account).value;
            var scheduled := Cancel(db, account, None).0;
            var periodOver := PeriodOver(db.subscriptions[row], db.now);
            && (Reactivate(scheduled, account).1.Ok? <==> !periodOver)
            && (!periodOver ==> Reactivate(scheduled, account).0.subscriptions == db.subscriptions)
  {
    var row := NewestSubscription(db.subscriptions, account).value;
    var scheduled := Cancel(db, account, None).0;
    SameNewest(db.subscriptions, scheduled.subscriptions, account);
  }

  /**
   * A token this service issued can be refreshed, by its own still bound device
   * and on a live subscription, until exactly 96 hours after its issue second.
   */
  lemma RefreshWindow(db: Db, j: Jwt, device: string)
    requires LivesTwoDays(j) && device != ""
    requires var t := FindToken(db.tokens, device);
             && t.Some?
             && var s := NewestSubscription(db.subscriptions, db.tokens[t.value].account);
                s.Some? && Refreshable(db.subscriptions[s.value].status)
    ensures Refresh(db, Some(j), device).1.Ok? <==> j.device == device && db.now <= j.issuedAt * 1000 + 96 * HOUR_MS
    ensures Refresh(db, Some(j), device).1.Ok? ==>
              var after := Refresh(db, Some(j), device).0;
              && |after.issued| == |db.issued| + 1
              && LivesTwoDays(after.issued[|db.issued|])
              && after.issued[|db.issued|].device == device && after.issued[|db.issued|].sub == j.sub
              && after.(issued := db.issued) == db
  {
  }

  /** A webhook delivered again changes nothing at all. */
  lemma WebhookIsIdempotent(db: Db, e: Webhook)
    requires ProcessWebhook(db, e).1.Ok?
    ensures ProcessWebhook(ProcessWebhook(db, e).0, e) == (ProcessWebhook(db, e).0, Ok(()))
  {
    var after := ProcessWebhook(db, e).0;
    if !WebhookSeen(db.audit, e.id) {
      assert after.audit[|after.audit| - 1].kind == WebhookProcessed(e.id);
    }
  }

  // ---- Reconciliation -----------------------------------------------------------------------

  /** The audit row a correction leaves. */
  function CorrectionRow(db: Db, row: nat, remote: map<string, string>): AuditRow
    requires row < |db.subscriptions| && Drifted(db, row, remote)
  {
    var status := Expected(db.payments, row, remote).value;
    AuditRow(ReconciliationCorrection(row, db.subscriptions[row].status, status),
             Some(db.subscriptions[row].account), None, db.now)
  }

  /** One correction row per drifted row, in row order. */
  function Corrections(db: Db, n: nat, remote: map<string, string>): seq<AuditRow>
    requires n <= |db.subscriptions|
  {
    if n == 0 then []
    else if Drifted(db, n - 1, remote) then Corrections(db, n - 1, remote) + [CorrectionRow(db, n - 1, remote)]
    else Corrections(db, n - 1, remote)
  }

  function CheckedCount(db: Db, n: nat): nat
    requires n <= |db.subscriptions|
  {
    if n == 0 then 0 else CheckedCount(db, n - 1) + if Checked(db.subscriptions[n - 1]) then 1 else 0
  }

  ghost function CheckedRows(db: Db, n: nat): set<nat>
    requires n <= |db.subscriptions|
  {
    set i: nat | i < n && db.subscriptions[i].status in {Active, PastDue}
  }

  /** The count is of the active and past-due rows. */
  lemma {:induction false} CheckedCountMeans(db: Db, n: nat)
    requires n <= |db.subscriptions|
    ensures CheckedCount(db, n) == |CheckedRows(db, n)|
  {
    if n == 0 {
      assert CheckedRows(db, 0) == {};
    } else {
      CheckedCountMeans(db, n - 1);
      if db.subscriptions[n - 1].status in {Active, PastDue} {
        assert CheckedRows(db, n) == CheckedRows(db, n - 1) + {n - 1};
      } else {
        assert CheckedRows(db, n) == CheckedRows(db, n - 1);
      }
    }
  }

  lemma {:induction false} ReconcileLogs(db: Db, n: nat, remote: map<string, string>)
    requires n <= |db.subscriptions|
    ensures ReconciledUpTo(db, n, remote).audit == db.audit + Corrections(db, n, remote)
    ensures ReconciledUpTo(db, n, remote).now == db.now
    ensures |Corrections(db, n, remote)| <= CheckedCount(db, n)
  {
    if n > 0 {
      ReconcileLogs(db, n - 1, remote);
    }
  }

  lemma {:induction false} NothingDrifted(db: Db, n: nat, remote: map<string, string>)
    requires n <= |db.subscriptions|
    requires forall i :: 0 <= i < n ==> !Drifted(db, i, remote)
    ensures ReconciledUpTo(db, n, remote) == db && Corrections(db, n, remote) == []
  {
    if n > 0 {
      NothingDrifted(db, n - 1, remote);
    }
  }

  /**
   * After a reconciliation every checked row with a fetchable record and a mapped
   * remote status agrees with the provider, every other row is as it was, the
   * log gained exactly one row per correction, and a second run against the same
   * answers changes nothing.
   */
  lemma ReconciliationConverges(db: Db, remote: map<string, string>, row: nat)
    requires row < |db.subscriptions|
    ensures var after := Reconcile(db, remote);
            && |after.subscriptions| == |db.subscriptions|
            && (Checked(db.subscriptions[row]) && Expected(db.payments, row, remote).Some? ==>
                  after.subscriptions[row]
                  == db.subscriptions[row].(status := Expected(db.payments, row, remote).value))
            && (!Checked(db.subscriptions[row]) || Expected(db.payments, row, remote).None? ==>
                  after.subscriptions[row] == db.subscriptions[row])
            && after.audit == db.audit + Corrections(db, |db.subscriptions|, remote)
            && |Corrections(db, |db.subscriptions|, remote)| <= CheckedCount(db, |db.subscriptions|)
            && Reconcile(after, remote) == after
  {
    var n := |db.subscriptions|;
    var after := Reconcile(db, remote);
    ReconcileLogs(db, n, remote);
    ReconcileRows(db, n, remote, row);
    forall i | 0 <= i < n ensures !Drifted(after, i, remote) {
      ReconcileRows(db, n, remote, i);
    }
    NothingDrifted(after, n, remote);
  }
}
