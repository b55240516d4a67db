/**
 * The activation rate gate under concurrency: each attempt first logs itself and
 * later counts, with any other steps in between and with clocks that need not
 * agree.  A row carries the log's own time; a count uses its caller's.
 */
module RateLimit {
  import opened Prelude
  import opened LicensingData
  import opened LicensingHandlers

  datatype Step =
    | LogAttempt(attempt: nat, email: string, at: nat)
    | CountAttempts(attempt: nat, email: string, at: nat)
    | OtherRow(row: AuditRow)

  /** `row` locates each attempt's log row, `passed` gives when it passed the gate. */
  datatype Gate = Gate(audit: seq<AuditRow>, row: map<nat, nat>, counted: set<nat>, passed: map<nat, nat>)

  const INITIAL_GATE := Gate([], map[], {}, map[])

  function Take(g: Gate, s: Step): Gate {
    match s
    case LogAttempt(a, email, at) =>
      if a in g.row then g
      else g.(audit := g.audit + [AuditRow(ActivationAttempt(email), None, None, at)], row := g.row[a := |g.audit|])
    case CountAttempts(a, email, at) =>
      if || a !in g.row || g.row[a] >= |g.audit| || g.audit[g.row[a]].kind != ActivationAttempt(email)
         || a in g.counted
      then g
      else if OverRateLimit(g.audit, email, at) then g.(counted := g.counted + {a})
      else g.(counted := g.counted + {a}, passed := g.passed[a := at])
    case OtherRow(row) => g.(audit := g.audit + [row])
  }

  function Run(steps: seq<Step>): Gate {
    if steps == [] then INITIAL_GATE else Take(Run(steps[..|steps| - 1]), steps[|steps| - 1])
  }

  /** Attempts have their own rows, and only logged attempts pass. */
  ghost predicate Inv(g: Gate) {
    && (forall a :: a in g.row ==> g.row[a] < |g.audit|)
    && (forall a, b :: a in g.row && b in g.row && a != b ==> g.row[a] != g.row[b])
    && g.passed.Keys <= g.counted
    && g.counted <= g.row.Keys
  }

  lemma {:induction false} RunKeepsInv(steps: seq<Step>)
    ensures Inv(Run(steps))
  {
    if steps != [] {
      RunKeepsInv(steps[..|steps| - 1]);
    }
  }

  /** These attempts for one e-mail passed, logged no earlier and counted no later than the interval. */
  ghost predicate PassedWithin(g: Gate, attempts: set<nat>, email: string, start: nat, end: nat) {
    forall a :: a in attempts ==>
      && a in g.passed && g.passed[a] <= end
      && a in g.row && g.row[a] < |g.audit|
      && g.audit[g.row[a]].kind == ActivationAttempt(email)
      && start <= g.audit[g.row[a]].at
  }

  /** The rows of attempts logged since `since` are all among those counted. */
  lemma RowsAreCounted(g: Gate, attempts: set<nat>, email: string, start: nat, since: int)
    requires Inv(g) && since <= start
    requires forall a :: a in attempts ==>
               a in g.row && g.audit[g.row[a]].kind == ActivationAttempt(email) && start <= g.audit[g.row[a]].at
    ensures |attempts| <= |Recent(g.audit, ActivationAttempt(email), since)|
  {
    InjectionBound(attempts, Recent(g.audit, ActivationAttempt(email), since), g.row);
  }

  lemma CountingPasses(g: Gate, s: Step)
    requires Inv(g) && s.CountAttempts? && Take(g, s).passed != g.passed
    ensures Take(g, s).audit == g.audit && Take(g, s).row == g.row && Take(g, s).passed == g.passed[s.attempt := s.at]
    ensures s.attempt in g.row && g.audit[g.row[s.attempt]].kind == ActivationAttempt(s.email)
    ensures !OverRateLimit(g.audit, s.email, s.at)
  {
  }

  /** A newly passing attempt has just counted every attempt of the interval, itself included. */
  lemma LastPasserCountsAll(g: Gate, s: Step, attempts: set<nat>, email: string, start: nat, end: nat)
    requires Inv(g) && start <= end <= start + RATE_LIMIT_WINDOW_MS
    requires s.CountAttempts? && s.attempt in attempts && Take(g, s).passed != g.passed
    requires PassedWithin(Take(g, s), attempts, email, start, end)
    ensures |attempts| <= RATE_LIMIT_MAX_ATTEMPTS
  {
    CountingPasses(g, s);
    assert s.attempt in g.row && g.row[s.attempt] < |g.audit|;
    RowsAreCounted(g, attempts, email, start, s.at - RATE_LIMIT_WINDOW_MS);
  }

  /** A step forgets nothing and lets at most its own attempt pass. */
  lemma TakeOnlyAdds(g: Gate, s: Step)
    requires Inv(g)
    ensures g.audit <= Take(g, s).audit
    ensures forall a :: a in g.row ==> a in Take(g, s).row && Take(g, s).row[a] == g.row[a]
    ensures forall a :: a in Take(g, s).passed ==>
              || (a in g.passed && Take(g, s).passed[a] == g.passed[a])
              || (s.CountAttempts? && a == s.attempt && Take(g, s).passed != g.passed)
  {
    if s.CountAttempts? {
      var after := Take(g, s);
      if after.passed != g.passed {
        assert after.passed == g.passed[s.attempt := s.at];
      }
    }
  }

  lemma PassedBefore(g: Gate, s: Step, attempts: set<nat>, email: string, start: nat, end: nat)
    requires Inv(g) && PassedWithin(Take(g, s), attempts, email, start, end)
    requires s.CountAttempts? && s.attempt in attempts ==> Take(g, s).passed == g.passed
    ensures PassedWithin(g, attempts, email, start, end)
  {
    TakeOnlyAdds(g, s);
    var after := Take(g, s);
    forall a | a in attempts
      ensures a in g.passed && g.passed[a] == after.passed[a] && a in g.row && after.row[a] == g.row[a]
    {
      assert a in g.passed && a in g.row;
      assert g.row[a] < |g.audit| && after.audit[g.row[a]] == g.audit[g.row[a]];
    }
  }

  /**
   * However the log and count steps of arbitrarily many attempts interleave, at
   * most five attempts for one e-mail whose two steps both fall in a common
   * interval of one hour or less pass the gate.
   */
  lemma {:induction false} AtMostFivePass(steps: seq<Step>, attempts: set<nat>, email: string, start: nat, end: nat)
    requires start <= end <= start + RATE_LIMIT_WINDOW_MS
    requires PassedWithin(Run(steps), attempts, email, start, end)
    ensures |attempts| <= RATE_LIMIT_MAX_ATTEMPTS
  {
    if steps == [] {
      assert INITIAL_GATE.passed.Keys == {};
      assert attempts <= INITIAL_GATE.passed.Keys;
    } else {
      var front := steps[..|steps| - 1];
      var last := steps[|steps| - 1];
      RunKeepsInv(front);
      if last.CountAttempts? && last.attempt in attempts && Take(Run(front), last).passed != Run(front).passed {
        LastPasserCountsAll(Run(front), last, attempts, email, start, end);
      } else {
        PassedBefore(Run(front), last, attempts, email, start, end);
        AtMostFivePass(front, attempts, email, start, end);
      }
    }
  }

  /** Attempts that log and count one after another. */
  function InTurn(n: nat, email: string, at: nat): seq<Step> {
    if n == 0 then []
    else InTurn(n - 1, email, at) + [LogAttempt(n - 1, email, at)] + [CountAttempts(n - 1, email, at)]
  }

  lemma RunSnoc(steps: seq<Step>, s: Step)
    ensures Run(steps + [s]) == Take(Run(steps), s)
  {
    assert (steps + [s])[..|steps|] == steps;
  }

  /** The first n attempts, and no others, have logged, counted and passed. */
  ghost predicate AllPassed(g: Gate, n: nat) {
    && Inv(g) && |g.audit| == n
    && g.row.Keys == g.counted == g.passed.Keys
    && (forall a: nat :: a in g.passed <==> a < n)
  }

  lemma OneMorePasses(g: Gate, n: nat, email: string, at: nat)
    requires AllPassed(g, n) && n < RATE_LIMIT_MAX_ATTEMPTS
    ensures AllPassed(Take(Take(g, LogAttempt(n, email, at)), CountAttempts(n, email, at)), n + 1)
  {
    assert n !in g.row;
    var logged := Take(g, LogAttempt(n, email, at));
    assert logged.audit[logged.row[n]].kind == ActivationAttempt(email);
    RecentIsSmall(logged.audit, ActivationAttempt(email), at - RATE_LIMIT_WINDOW_MS);
    assert !OverRateLimit(logged.audit, email, at);
  }

  /** The bound is met: five attempts that take turns all pass. */
  lemma {:induction false} FiveInTurnPass(n: nat, email: string, at: nat)
    requires n <= RATE_LIMIT_MAX_ATTEMPTS
    ensures AllPassed(Run(InTurn(n, email, at)), n)
  {
    if n > 0 {
      var steps := InTurn(n - 1, email, at);
      var log, count := LogAttempt(n - 1, email, at), CountAttempts(n - 1, email, at);
      assert Run(InTurn(n, email, at)) == Take(Take(Run(steps), log), count) by {
        RunSnoc(steps, log);
        RunSnoc(steps + [log], count);
      }
      FiveInTurnPass(n - 1, email, at);
      OneMorePasses(Run(steps), n - 1, email, at);
    }
  }

  /**
   * An activation running alone takes exactly these two steps: it is refused when
   * the gate refuses it, which is when five attempts for the e-mail were already
   * logged within the hour.
   */
  lemma ActivationIsLogThenCount(db: Db, email: string, payment: PaymentCheck, device: string, interval: string,
                                 g: Gate, a: nat)
    requires email != "" && device != "" && interval != ""
    requires g.audit == db.audit && a !in g.row && a !in g.counted && a !in g.passed
    ensures var g' := Take(Take(g, LogAttempt(a, email, db.now)), CountAttempts(a, email, db.now));
            && g'.audit == db.audit + [AuditRow(ActivationAttempt(email), None, None, db.now)]
            && (Activate(db, email, payment, device, interval).1 == Err(RateLimited) <==> a !in g'.passed)
    ensures Activate(db, email, payment, device, interval).1 == Err(RateLimited) <==>
              |Recent(db.audit, ActivationAttempt(email), db.now - RATE_LIMIT_WINDOW_MS)| >= RATE_LIMIT_MAX_ATTEMPTS
  {
    var row := AuditRow(ActivationAttempt(email), None, None, db.now);
    var since := db.now - RATE_LIMIT_WINDOW_MS;
    RecentGrows(db.audit, row, row.kind, since);
    assert |db.audit| !in Recent(db.audit, row.kind, since);
    assert |Recent(db.audit + [row], row.kind, since)| == |Recent(db.audit, row.kind, since)| + 1;
    assert Logged(db, row.kind, None, None).audit == db.audit + [row];
  }
}
