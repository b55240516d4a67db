/**
 * The consent log: a table of events that are only ever inserted, and withdrawn
 * by stamping the newest active row of a type.  Rows are in rowid order.
 */
module Consent {
  import opened Prelude

  datatype Row = Row(id: nat, eventType: string, disclosure: string, consentedAt: nat, withdrawnAt: Option<nat>)

  predicate IsActive(r: Row, eventType: string) {
    r.eventType == eventType && r.withdrawnAt.None?
  }

  /** `... WHERE event_type = ? AND withdrawn_at IS NULL`, in rowid order. */
  function Active(rows: seq<Row>, eventType: string): seq<Row> {
    if rows == [] then []
    else
      var earlier := Active(rows[..|rows| - 1], eventType);
      var last := rows[|rows| - 1];
      if IsActive(last, eventType) then earlier + [last] else earlier
  }

  /** The row a withdrawal stamps: the last active one of its type. */
  function Newest(rows: seq<Row>, eventType: string): (i: Option<nat>)
    ensures i.Some? ==> i.value < |rows| && IsActive(rows[i.value], eventType)
                        && forall j :: i.value < j < |rows| ==> !IsActive(rows[j], eventType)
    ensures i.None? ==> forall j :: 0 <= j < |rows| ==> !IsActive(rows[j], eventType)
  {
    if rows == [] then None
    else if IsActive(rows[|rows| - 1], eventType) then Some(|rows| - 1)
    else Newest(rows[..|rows| - 1], eventType)
  }

  function Inserted(rows: seq<Row>, eventType: string, disclosure: string, now: nat): seq<Row> {
    rows + [Row(|rows|, eventType, disclosure, now, None)]
  }

  function Withdrawn(rows: seq<Row>, eventType: string, now: nat): seq<Row> {
    var i := Newest(rows, eventType);
    if i.None? then rows else rows[i.value := rows[i.value].(withdrawnAt := Some(now))]
  }

  /** One page of the history, newest row first. */
  function Page(rows: seq<Row>, limit: nat, offset: nat): seq<Row> {
    if offset >= |rows| || limit == 0 then []
    else [rows[|rows| - 1 - offset]] + Page(rows, limit - 1, offset + 1)
  }

  /** The last row of the type that has not been withdrawn. */
  predicate IsNewestActive(rows: seq<Row>, eventType: string, i: nat)
    requires i < |rows|
  {
    && rows[i].eventType == eventType && rows[i].withdrawnAt == None
    && forall j :: i < j < |rows| && rows[j].eventType == eventType ==> rows[j].withdrawnAt != None
  }

  class ConsentLog {
    var rows: seq<Row>

    constructor ()
      ensures rows == []
    {
      rows := [];
    }

    method InsertConsentEvent(eventType: string, disclosure: string, now: nat) returns (id: nat)
      modifies this
      ensures rows == Apply(old(rows), Insert(eventType, disclosure, now)) && id == |old(rows)|
      ensures old(rows) <= rows && |rows| == id + 1 && rows[id] == Row(id, eventType, disclosure, now, None)
      ensures Active(rows, eventType) == Active(old(rows), eventType) + [rows[id]]
      ensures forall other :: other != eventType ==> Active(rows, other) == Active(old(rows), other)
    {
      id := |rows|;
      rows := rows + [Row(id, eventType, disclosure, now, None)];
      assert rows[..id] == old(rows);
    }

    method WithdrawConsentEvent(eventType: string, now: nat)
      modifies this
      ensures rows == Apply(old(rows), Withdraw(eventType, now))
      ensures |rows| == |old(rows)|
      ensures forall i :: 0 <= i < |rows| ==>
                rows[i] == if IsNewestActive(old(rows), eventType, i) then old(rows)[i].(withdrawnAt := Some(now))
                           else old(rows)[i]
      ensures var before := Active(old(rows), eventType);
              Active(rows, eventType) == if before == [] then [] else before[..|before| - 1]
      ensures forall other :: other != eventType ==> Active(rows, other) == Active(old(rows), other)
    {
      forall other {
        StampPops(rows, eventType, now, other);
      }
      var i := |rows|;
      while i > 0 && !IsActive(rows[i - 1], eventType)
        invariant 0 <= i <= |rows|
        invariant forall j :: i <= j < |rows| ==> !IsActive(rows[j], eventType)
      {
        i := i - 1;
      }
      if i > 0 {
        rows := rows[i - 1 := rows[i - 1].(withdrawnAt := Some(now))];
      }
    }

    method HasActiveConsent(eventType: string) returns (active: bool)
      ensures active <==> Active(rows, eventType) != []
      ensures active <==> exists i :: 0 <= i < |rows| && rows[i].eventType == eventType && rows[i].withdrawnAt == None
    {
      var count := 0;
      var i := 0;
      while i < |rows|
        invariant 0 <= i <= |rows| && count == |Active(rows[..i], eventType)|
      {
        assert rows[..i + 1][..i] == rows[..i];
        if IsActive(rows[i], eventType) {
          count := count + 1;
        }
        i := i + 1;
      }
      assert rows[..i] == rows;
      ActiveExists(rows, eventType);
      active := count > 0;
    }

    method FetchConsentHistory(limit: nat, offset: nat) returns (events: seq<Row>)
      ensures events == Page(rows, limit, offset)
    {
      events := [];
      var i := 0;
      while i < limit && offset + i < |rows|
        invariant 0 <= i <= limit
        invariant events + Page(rows, limit - i, offset + i) == Page(rows, limit, offset)
      {
        events := events + [rows[|rows| - 1 - offset - i]];
        i := i + 1;
      }
    }
  }

  lemma {:induction false} ActiveExists(rows: seq<Row>, eventType: string)
    ensures Active(rows, eventType) != [] <==>
              exists i :: 0 <= i < |rows| && rows[i].eventType == eventType && rows[i].withdrawnAt == None
  {
    if rows != [] {
      ActiveExists(rows[..|rows| - 1], eventType);
    }
  }

  // ---- The table refines one stack per event type -------------------------------

  datatype Op = Insert(eventType: string, disclosure: string, at: nat) | Withdraw(eventType: string, at: nat)

  function Apply(rows: seq<Row>, op: Op): seq<Row> {
    match op
    case Insert(eventType, disclosure, at) => Inserted(rows, eventType, disclosure, at)
    case Withdraw(eventType, at) => Withdrawn(rows, eventType, at)
  }

  function Run(ops: seq<Op>): seq<Row> {
    if ops == [] then [] else Apply(Run(ops[..|ops| - 1]), ops[|ops| - 1])
  }

  /** What a stack of disclosures for one event type holds after the same operations. */
  function Stack(ops: seq<Op>, eventType: string): seq<(string, nat)> {
    if ops == [] then []
    else
      var s := Stack(ops[..|ops| - 1], eventType);
      var op := ops[|ops| - 1];
      if op.eventType != eventType then s
      else if op.Insert? then s + [(op.disclosure, op.at)]
      else if s == [] then s
      else s[..|s| - 1]
  }

  function Entries(rows: seq<Row>): seq<(string, nat)> {
    if rows == [] then []
    else Entries(rows[..|rows| - 1]) + [(rows[|rows| - 1].disclosure, rows[|rows| - 1].consentedAt)]
  }

  lemma EntriesSnoc(rows: seq<Row>, r: Row)
    ensures Entries(rows + [r]) == Entries(rows) + [(r.disclosure, r.consentedAt)]
  {
    assert (rows + [r])[..|rows|] == rows;
  }

  /** Stamping the newest active row of a type pops that type and leaves every other type alone. */
  lemma {:induction false} StampPops(rows: seq<Row>, eventType: string, now: nat, other: string)
    ensures var before, after := Active(rows, other), Active(Withdrawn(rows, eventType, now), other);
            && (other != eventType ==> after == before)
            && (other == eventType ==> after == if before == [] then [] else before[..|before| - 1])
  {
    if rows != [] {
      var n := |rows| - 1;
      var rest := rows[..n];
      var after := Withdrawn(rows, eventType, now);
      if IsActive(rows[n], eventType) {
        assert after[..n] == rest;
      } else {
        StampPops(rest, eventType, now, other);
        assert after[..n] == Withdrawn(rest, eventType, now) && after[n] == rows[n];
        ActiveEmpty(rest, eventType);
      }
    }
  }

  lemma {:induction false} ActiveEmpty(rows: seq<Row>, eventType: string)
    ensures Newest(rows, eventType).None? <==> Active(rows, eventType) == []
  {
    if rows != [] {
      ActiveEmpty(rows[..|rows| - 1], eventType);
    }
  }

  lemma {:induction false} EntriesPrefix(rows: seq<Row>, n: nat)
    requires n <= |rows|
    ensures |Entries(rows)| == |rows| && Entries(rows)[..n] == Entries(rows[..n])
  {
    if n < |rows| {
      EntriesPrefix(rows[..|rows| - 1], n);
      assert rows[..|rows| - 1][..n] == rows[..n];
    } else {
      assert rows[..n] == rows;
      if rows != [] { EntriesPrefix(rows[..|rows| - 1], |rows| - 1); }
    }
  }

  /**
   * After any operations, the active rows of a type, in row order, are exactly
   * the contents of the stack that each insertion pushes and each withdrawal
   * pops; so a consent is active exactly when that stack is not empty.
   */
  lemma {:induction false} TableRefinesStack(ops: seq<Op>, eventType: string)
    ensures Entries(Active(Run(ops), eventType)) == Stack(ops, eventType)
    ensures Active(Run(ops), eventType) != [] <==> Stack(ops, eventType) != []
  {
    if ops != [] {
      var front := ops[..|ops| - 1];
      var op := ops[|ops| - 1];
      TableRefinesStack(front, eventType);
      var rows := Run(front);
      var active := Active(rows, eventType);
      match op {
        case Insert(t, disclosure, at) =>
          var r := Row(|rows|, t, disclosure, at, None);
          assert (rows + [r])[..|rows|] == rows;
          EntriesSnoc(active, r);
        case Withdraw(t, at) =>
          StampPops(rows, t, at, eventType);
          if active != [] { EntriesPrefix(active, |active| - 1); } else { assert Entries(active) == []; }
      }
      EntriesPrefix(Active(Run(ops), eventType), 0);
    }
  }

  /**
   * The history never shrinks and is never rewritten: every earlier row survives
   * further operations with its id, type, text and time, and once withdrawn it
   * stays withdrawn at the same time.
   */
  lemma {:induction false} HistoryOnlyGrows(ops: seq<Op>, n: nat)
    requires n <= |ops|
    ensures var before, after := Run(ops[..n]), Run(ops);
            && |before| <= |after|
            && forall i :: 0 <= i < |before| ==>
                 && after[i].(withdrawnAt := None) == before[i].(withdrawnAt := None)
                 && (before[i].withdrawnAt.Some? ==> after[i] == before[i])
  {
    if n == |ops| {
      assert ops[..n] == ops;
    } else {
      var front := ops[..|ops| - 1];
      HistoryOnlyGrows(front, n);
      assert front[..n] == ops[..n];
    }
  }

  /** Consecutive pages are one longer page, so paging visits each row exactly once, newest first. */
  lemma {:induction false} PagesJoin(rows: seq<Row>, a: nat, b: nat, offset: nat)
    ensures Page(rows, a, offset) + Page(rows, b, offset + a) == Page(rows, a + b, offset)
    decreases a
  {
    if offset >= |rows| || a == 0 {
      assert Page(rows, a, offset) == [];
    } else {
      var head := [rows[|rows| - 1 - offset]];
      var rest, next := Page(rows, a - 1, offset + 1), Page(rows, b, offset + a);
      PagesJoin(rows, a - 1, b, offset + 1);
      assert Page(rows, a, offset) == head + rest;
      assert Page(rows, a + b, offset) == head + Page(rows, a - 1 + b, offset + 1);
      assert (head + rest) + next == head + (rest + next);
    }
  }

  /** The i-th entry of a page is the row that many places before the newest one. */
  lemma {:induction false} PageAt(rows: seq<Row>, limit: nat, offset: nat, i: nat)
    requires offset + i < |rows| && i < limit
    ensures var p := Page(rows, limit, offset);
            |p| == Min(limit, |rows| - offset) && p[i] == rows[|rows| - 1 - offset - i]
    decreases limit
  {
    if offset + 1 < |rows| && limit > 1 {
      PageAt(rows, limit - 1, offset + 1, if i > 0 then i - 1 else 0);
    }
  }
}
