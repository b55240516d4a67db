/**
 * Monthly and per-period aggregation of the ledger.
 *
 * Times are the stored text `YYYY-MM-DD HH:MM:SS`, compared as SQLite compares
 * text; amounts are minor units.  Months are those of four-digit years.
 */
module Ledger {
  import opened Prelude

  const MAX_TEXT_YEAR := 9999
  const TEXT_MONTHS := 120000
  const DAY_S := 86400

  // ---- Text order ---------------------------------------------------------------

  predicate TextLess(a: string, b: string) {
    if a == [] then b != []
    else b != [] && (a[0] < b[0] || (a[0] == b[0] && TextLess(a[1..], b[1..])))
  }

  lemma {:induction false} TextLessTotal(a: string, b: string)
    ensures a == b || TextLess(a, b) || TextLess(b, a)
    ensures !(TextLess(a, b) && TextLess(b, a)) && !TextLess(a, a)
  {
    if a != [] && b != [] && a[0] == b[0] {
      TextLessTotal(a[1..], b[1..]);
      assert a == [a[0]] + a[1..] && b == [b[0]] + b[1..];
    }
    if a != [] { TextLessTotal(a[1..], a[1..]); }
  }

  lemma {:induction false} TextLessTransitive(a: string, b: string, c: string)
    requires TextLess(a, b) && TextLess(b, c)
    ensures TextLess(a, c)
  {
    if a != [] && a[0] == b[0] && b[0] == c[0] {
      TextLessTransitive(a[1..], b[1..], c[1..]);
    }
  }

  lemma {:induction false} TextLessExtends(a: string, b: string, x: string, y: string)
    requires |a| == |b| && TextLess(a, b)
    ensures TextLess(a + x, b + y)
  {
    assert (a + x)[1..] == a[1..] + x && (b + y)[1..] == b[1..] + y;
    if a[0] == b[0] {
      TextLessExtends(a[1..], b[1..], x, y);
    }
  }

  lemma {:induction false} TextLessAfterPrefix(p: string, a: string, b: string)
    requires TextLess(a, b)
    ensures TextLess(p + a, p + b)
  {
    if p == [] {
      assert p + a == a && p + b == b;
    } else {
      assert (p + a)[1..] == p[1..] + a && (p + b)[1..] == p[1..] + b;
      TextLessAfterPrefix(p[1..], a, b);
    }
  }

  /** The first difference decides, or else the shorter text comes first. */
  predicate DiffersAt(a: string, b: string, i: nat) {
    && i <= |a| && i < |b| && a[..i] == b[..i]
    && (i == |a| || a[i] < b[i])
  }

  lemma {:induction false} TextLessMeans(a: string, b: string)
    ensures TextLess(a, b) <==> exists i: nat :: DiffersAt(a, b, i)
  {
    if a != [] && b != [] && a[0] == b[0] {
      TextLessMeans(a[1..], b[1..]);
      if i: nat :| DiffersAt(a[1..], b[1..], i) {
        assert a[..i + 1] == [a[0]] + a[1..][..i] && b[..i + 1] == [b[0]] + b[1..][..i];
        assert DiffersAt(a, b, i + 1);
      }
      if i: nat :| DiffersAt(a, b, i) {
        assert i > 0;
        assert a[1..][..i - 1] == a[..i][1..] && b[1..][..i - 1] == b[..i][1..];
        assert DiffersAt(a[1..], b[1..], i - 1);
      }
    } else if b != [] && (a == [] || a[0] < b[0]) {
      assert DiffersAt(a, b, 0);
    } else if b != [] {
      forall i | 0 < i <= |a| && i <= |b| ensures a[..i] != b[..i] {
        assert a[..i][0] == a[0] && b[..i][0] == b[0];
      }
    }
  }

  // ---- Months ---------------------------------------------------------------------

  function DigitChar(d: nat): char
    requires d < 10
  {
    '0' + d as char
  }

  /** The last `width` decimal digits of n. */
  function Padded(n: nat, width: nat): (s: string)
    ensures |s| == width
  {
    if width == 0 then "" else Padded(n / 10, width - 1) + [DigitChar(n % 10)]
  }

  function Power10(width: nat): nat {
    if width == 0 then 1 else 10 * Power10(width - 1)
  }

  lemma {:induction false} PaddedMonotone(m: nat, n: nat, width: nat)
    requires m < n < Power10(width)
    ensures TextLess(Padded(m, width), Padded(n, width))
  {
    if m / 10 < n / 10 {
      PaddedMonotone(m / 10, n / 10, width - 1);
      TextLessExtends(Padded(m / 10, width - 1), Padded(n / 10, width - 1), [DigitChar(m % 10)], [DigitChar(n % 10)]);
    } else {
      assert m % 10 < n % 10;
      TextLessAfterPrefix(Padded(m / 10, width - 1), [DigitChar(m % 10)], [DigitChar(n % 10)]);
    }
  }

  type Month = m: int | 1 <= m <= 12 witness 1

  /** All decimal digits of n, at least four. */
  function Decimal(n: nat): string {
    if n <= MAX_TEXT_YEAR then Padded(n, 4) else Decimal(n / 10) + [DigitChar(n % 10)]
  }

  /** Years that do not have four digits are printed with a sign. */
  function YearText(year: int): string {
    if 0 <= year <= MAX_TEXT_YEAR then Padded(year, 4)
    else if year > 0 then "+" + Decimal(year)
    else "-" + Decimal(-year)
  }

  function FirstOfMonth(year: int, month: Month): string {
    YearText(year) + "-" + Padded(month, 2) + "-01 00:00:00"
  }

  function FirstOfNext(year: int, month: Month): string {
    if month == 12 then FirstOfMonth(year + 1, 1) else FirstOfMonth(year, month + 1)
  }

  /**
   * The half-open text range of one month.  `parsed` is what the date parser made
   * of the month text; there is no range when it made nothing, or when the next
   * month lies beyond the last year dates can have.
   */
  function MonthBounds(parsed: Option<(int, Month)>, lastYear: int): Option<(string, string)> {
    if parsed.None? || (parsed.value.1 == 12 && parsed.value.0 >= lastYear) then None
    else Some((FirstOfMonth(parsed.value.0, parsed.value.1), FirstOfNext(parsed.value.0, parsed.value.1)))
  }

  /** Months counted from January of year 0; there are TEXT_MONTHS of them with four-digit years. */
  function MonthStart(index: nat): string {
    FirstOfMonth(index / 12, index % 12 + 1)
  }

  lemma PaddedDigits(n: nat)
    ensures Padded(n, 2) == [DigitChar(n / 10 % 10), DigitChar(n % 10)]
    ensures Padded(n, 4) ==
            [DigitChar(n / 10 / 10 / 10 % 10), DigitChar(n / 10 / 10 % 10), DigitChar(n / 10 % 10), DigitChar(n % 10)]
  {
    assert Padded(n / 10 / 10 / 10, 1) == [DigitChar(n / 10 / 10 / 10 % 10)];
    assert Padded(n / 10, 1) == [DigitChar(n / 10 % 10)];
  }

  /** How the first instant of a month is written: four digits, two digits, or a sign before any other year. */
  lemma MonthText(year: int, month: Month)
    ensures forall d: nat :: d < 10 ==> DigitChar(d) == "0123456789"[d]
    ensures 0 <= year <= 9999 ==>
              FirstOfMonth(year, month) ==
              [DigitChar(year / 10 / 10 / 10 % 10), DigitChar(year / 10 / 10 % 10), DigitChar(year / 10 % 10),
               DigitChar(year % 10)] + "-" + [DigitChar(month / 10 % 10), DigitChar(month % 10)] + "-01 00:00:00"
    ensures year > 9999 ==> FirstOfMonth(year, month)[0] == '+'
    ensures year < 0 ==> FirstOfMonth(year, month)[0] == '-'
  {
    PaddedDigits(month);
    if 0 <= year <= 9999 { PaddedDigits(year); }
  }

  /** Bounds tile the calendar: each month ends where the next begins, December included. */
  lemma BoundsTile(index: nat, lastYear: int)
    requires index < TEXT_MONTHS && MAX_TEXT_YEAR < lastYear
    ensures MonthBounds(Some((index / 12, index % 12 + 1)), lastYear)
         == Some((MonthStart(index), MonthStart(index + 1)))
  {
    if index % 12 == 11 {
      assert (index + 1) / 12 == index / 12 + 1 && (index + 1) % 12 == 0;
    } else {
      assert (index + 1) / 12 == index / 12 && (index + 1) % 12 == index % 12 + 1;
    }
  }

  lemma SameYearOrdered(y: nat, m: nat)
    requires 1 <= m < 12
    ensures TextLess(FirstOfMonth(y, m), FirstOfMonth(y, m + 1))
  {
    var rest := "-01 00:00:00";
    PowersOfTen();
    PaddedMonotone(m, m + 1, 2);
    TextLessExtends(Padded(m, 2), Padded(m + 1, 2), rest, rest);
    TextLessAfterPrefix(YearText(y) + "-", Padded(m, 2) + rest, Padded(m + 1, 2) + rest);
    assert FirstOfMonth(y, m) == YearText(y) + "-" + (Padded(m, 2) + rest);
    assert FirstOfMonth(y, m + 1) == YearText(y) + "-" + (Padded(m + 1, 2) + rest);
  }

  lemma YearEndOrdered(y: nat)
    requires y <= MAX_TEXT_YEAR
    ensures TextLess(FirstOfMonth(y, 12), FirstOfMonth(y + 1, 1)) <==> y < MAX_TEXT_YEAR
  {
    if y < MAX_TEXT_YEAR {
      var december, january := "-" + Padded(12, 2) + "-01 00:00:00", "-" + Padded(1, 2) + "-01 00:00:00";
      PowersOfTen();
      PaddedMonotone(y, y + 1, 4);
      TextLessExtends(Padded(y, 4), Padded(y + 1, 4), december, january);
      assert FirstOfMonth(y, 12) == Padded(y, 4) + december;
      assert FirstOfMonth(y + 1, 1) == Padded(y + 1, 4) + january;
    } else {
      SignSortsFirst(FirstOfMonth(y, 12), FirstOfMonth(y + 1, 1), y);
    }
  }

  /**
   * A month's text range is non-empty exactly when its end still has a four-digit
   * year; the range of December 9999 is empty because a sign sorts before digits.
   */
  lemma MonthRangeOrdered(index: nat)
    requires index < TEXT_MONTHS
    ensures TextLess(MonthStart(index), MonthStart(index + 1)) <==> index + 1 < TEXT_MONTHS
  {
    var y := index / 12;
    if index % 12 == 11 {
      assert (index + 1) / 12 == y + 1 && (index + 1) % 12 == 0;
      YearEndOrdered(y);
    } else {
      assert (index + 1) / 12 == y && (index + 1) % 12 == index % 12 + 1;
      SameYearOrdered(y, index % 12 + 1);
    }
  }

  lemma PowersOfTen()
    ensures Power10(2) == 100 && Power10(4) == 10000
  {
    assert Power10(1) == 10 && Power10(3) == 1000;
  }

  lemma SignSortsFirst(a: string, b: string, y: nat)
    requires y <= MAX_TEXT_YEAR && Padded(y, 4) <= a && |b| > 0 && b[0] == '+'
    ensures !TextLess(a, b)
  {
    assert a[0] == Padded(y, 4)[0];
    assert Padded(y, 4) == Padded(y / 10, 3) + [DigitChar(y % 10)];
    LeadingDigit(y, 4);
  }

  lemma {:induction false} LeadingDigit(n: nat, width: nat)
    requires width > 0
    ensures '0' <= Padded(n, width)[0]
  {
    if width > 1 {
      LeadingDigit(n / 10, width - 1);
    }
  }

  // ---- Spend by category -------------------------------------------------------------

  datatype Transaction = Transaction(
    id: nat,
    category: Option<nat>,
    debit: bool,
    deleted: bool,
    time: string,
    amount: int)

  /** Categories in name order. */
  datatype Category = Category(id: nat, name: string, budgetMinor: Option<int>, deleted: bool)

  datatype CategorySpend = CategorySpend(
    categoryId: nat,
    name: string,
    totalSpend: real,
    monthlyBudget: Option<real>,
    utilizationPct: real)

  /** Live debits that no open reconciliation cluster claims. */
  predicate Qualifies(t: Transaction, open: set<nat>) {
    t.debit && !t.deleted && t.id !in open
  }

  predicate InRange(time: string, from: string, to: string) {
    !TextLess(time, from) && TextLess(time, to)
  }

  predicate CountsFor(t: Transaction, open: set<nat>, category: nat, from: string, to: string) {
    t.category == Some(category) && Qualifies(t, open) && InRange(t.time, from, to)
  }

  /** The joined and summed minor units of one category over one range. */
  function SpendMinor(txs: seq<Transaction>, open: set<nat>, category: nat, from: string, to: string): int {
    if txs == [] then 0
    else
      var last := txs[|txs| - 1];
      SpendMinor(txs[..|txs| - 1], open, category, from, to)
      + if CountsFor(last, open, category, from, to) then last.amount else 0
  }

  function Minor(amount: int): real {
    amount as real / 100.0
  }

  function SpendRow(c: Category, spendMinor: int): CategorySpend {
    var total := Minor(spendMinor);
    var budget := if c.budgetMinor.Some? then Some(Minor(c.budgetMinor.value)) else None;
    CategorySpend(c.id, c.name, total, budget,
      if budget.Some? && budget.value > 0.0 then total / budget.value * 100.0 else 0.0)
  }

  function Live(categories: seq<Category>): seq<Category> {
    if categories == [] then []
    else
      var earlier := Live(categories[..|categories| - 1]);
      var last := categories[|categories| - 1];
      if last.deleted then earlier else earlier + [last]
  }

  lemma LiveSnoc(categories: seq<Category>, c: Category)
    ensures Live([]) == []
    ensures Live(categories + [c]) == if c.deleted then Live(categories) else Live(categories) + [c]
  {
    assert (categories + [c])[..|categories|] == categories;
  }

  /**
   * What one more transaction does to a category's sum: a credit, a deleted one or
   * one in an open cluster nothing; any other adds its amount exactly if it is of
   * that category and not before the start nor at or after the end.
   */
  lemma SpendSnoc(txs: seq<Transaction>, t: Transaction, open: set<nat>, category: nat, from: string, to: string)
    ensures SpendMinor([], open, category, from, to) == 0
    ensures !t.debit || t.deleted || t.id in open ==>
              SpendMinor(txs + [t], open, category, from, to) == SpendMinor(txs, open, category, from, to)
    ensures t.debit && !t.deleted && t.id !in open ==>
              SpendMinor(txs + [t], open, category, from, to)
              == SpendMinor(txs, open, category, from, to)
                 + if t.category == Some(category) && !TextLess(t.time, from) && TextLess(t.time, to)
                   then t.amount else 0
  {
    assert (txs + [t])[..|txs|] == txs;
  }

  /** The sum does not depend on where in the table its transactions stand. */
  lemma {:induction false} SpendConcat(xs: seq<Transaction>, ys: seq<Transaction>, open: set<nat>, category: nat,
                                       from: string, to: string)
    ensures SpendMinor(xs + ys, open, category, from, to)
         == SpendMinor(xs, open, category, from, to) + SpendMinor(ys, open, category, from, to)
  {
    if ys == [] {
      assert xs + ys == xs;
    } else {
      var n := |ys| - 1;
      SpendConcat(xs, ys[..n], open, category, from, to);
      assert (xs + ys)[..|xs| + n] == xs + ys[..n];
    }
  }

  /** The row of a category one more transaction is shown in: its total moves by a hundredth of the amount, or stays. */
  lemma {:induction false} RowAfterTransaction(txs: seq<Transaction>, t: Transaction, open: set<nat>, c: Category,
                                               from: string, to: string)
    ensures var row := SpendRow(c, SpendMinor(txs, open, c.id, from, to));
            var next := SpendRow(c, SpendMinor(txs + [t], open, c.id, from, to));
            && (!t.debit || t.deleted || t.id in open || t.category != Some(c.id) ==> next == row)
            && (TextLess(t.time, from) || !TextLess(t.time, to) ==> next == row)
            && (t.debit && !t.deleted && t.id !in open && t.category == Some(c.id)
                && !TextLess(t.time, from) && TextLess(t.time, to) ==>
                  next.totalSpend == row.totalSpend + t.amount as real / 100.0)
  {
    SpendSnoc(txs, t, open, c.id, from, to);
  }

  method SumFor(txs: seq<Transaction>, open: set<nat>, category: nat, from: string, to: string) returns (sum: int)
    ensures sum == SpendMinor(txs, open, category, from, to)
  {
    sum := 0;
    var i := 0;
    while i < |txs|
      invariant 0 <= i <= |txs| && sum == SpendMinor(txs[..i], open, category, from, to)
    {
      assert txs[..i + 1][..i] == txs[..i];
      if CountsFor(txs[i], open, category, from, to) {
        sum := sum + txs[i].amount;
      }
      i := i + 1;
    }
    assert txs[..i] == txs;
  }

  /** The parts of a row that do not depend on the sum, and how the used share follows from it. */
  predicate Shows(row: CategorySpend, c: Category) {
    && row.categoryId == c.id && row.name == c.name
    && row.monthlyBudget == (if c.budgetMinor.Some? then Some(c.budgetMinor.value as real / 100.0) else None)
    && row.utilizationPct ==
         if c.budgetMinor.Some? && c.budgetMinor.value > 0
         then row.totalSpend / (c.budgetMinor.value as real / 100.0) * 100.0 else 0.0
  }

  /**
   * One row per live category, in order, each with exactly its own debits of the
   * month; an error exactly when the text is no month or its end is no date.
   */
  method FetchCategorySpend(txs: seq<Transaction>, open: set<nat>, categories: seq<Category>, month: string,
                            parse: string -> Option<(int, Month)>, lastYear: int)
    returns (results: Result<seq<CategorySpend>, string>)
    ensures results.Err? <==>
              var parsed := parse(month + "-01");
              parsed.None? || (parsed.value.1 == 12 && parsed.value.0 >= lastYear)
    ensures results.Ok? ==>
              var (year, m) := parse(month + "-01").value;
              && |results.value| == |Live(categories)|
              && forall i :: 0 <= i < |results.value| ==>
                   results.value[i] == SpendRow(Live(categories)[i],
                     SpendMinor(txs, open, Live(categories)[i].id, FirstOfMonth(year, m), FirstOfNext(year, m)))
    ensures results.Ok? ==> forall i :: 0 <= i < |results.value| ==> Shows(results.value[i], Live(categories)[i])
  {
    var bounds := MonthBounds(parse(month + "-01"), lastYear);
    if bounds.None? {
      return Err("invalid month");
    }
    var (start, end) := bounds.value;
    var rows := [];
    var i := 0;
    while i < |categories|
      invariant 0 <= i <= |categories|
      invariant |rows| == |Live(categories[..i])|
      invariant forall k :: 0 <= k < |rows| ==>
                  rows[k] == SpendRow(Live(categories[..i])[k],
                    SpendMinor(txs, open, Live(categories[..i])[k].id, start, end))
    {
      assert categories[..i + 1][..i] == categories[..i];
      if !categories[i].deleted {
        var sum := SumFor(txs, open, categories[i].id, start, end);
        rows := rows + [SpendRow(categories[i], sum)];
      }
      i := i + 1;
    }
    assert categories[..i] == categories;
    results := Ok(rows);
  }

  /** Spend from the start of one month to the start of another. */
  function SpendBetween(txs: seq<Transaction>, open: set<nat>, category: nat, index: nat, end: nat): int {
    SpendMinor(txs, open, category, MonthStart(index), MonthStart(end))
  }

  /** Category spend added up month by month. */
  function SpendOverMonths(txs: seq<Transaction>, open: set<nat>, category: nat, index: nat, end: nat): int
    requires index <= end
  {
    if index == end then 0
    else SpendOverMonths(txs, open, category, index, end - 1) + SpendBetween(txs, open, category, end - 1, end)
  }

  lemma {:induction false} RangesAdd(txs: seq<Transaction>, open: set<nat>, category: nat, a: string, b: string,
                                     c: string)
    requires a == b || TextLess(a, b)
    requires TextLess(b, c)
    ensures SpendMinor(txs, open, category, a, c)
         == SpendMinor(txs, open, category, a, b) + SpendMinor(txs, open, category, b, c)
  {
    if txs != [] {
      RangesAdd(txs[..|txs| - 1], open, category, a, b, c);
      RangeSplits(txs[|txs| - 1].time, a, b, c);
    }
  }

  /** Every time in [a, c) is in exactly one of [a, b) and [b, c), and nothing else is in either. */
  lemma RangeSplits(time: string, a: string, b: string, c: string)
    requires a == b || TextLess(a, b)
    requires TextLess(b, c)
    ensures InRange(time, a, c) <==> InRange(time, a, b) || InRange(time, b, c)
    ensures !(InRange(time, a, b) && InRange(time, b, c))
  {
    TextLessTotal(time, b);
    TextLessTotal(time, a);
    if TextLess(time, b) { TextLessTransitive(time, b, c); }
    if !TextLess(time, b) && TextLess(time, a) && a != b { TextLessTransitive(time, a, b); }
  }

  lemma {:induction false} MonthsAscend(index: nat, end: nat)
    requires index < end < TEXT_MONTHS
    ensures TextLess(MonthStart(index), MonthStart(end))
    decreases end
  {
    MonthRangeOrdered(end - 1);
    if index < end - 1 {
      MonthsAscend(index, end - 1);
      TextLessTransitive(MonthStart(index), MonthStart(end - 1), MonthStart(end));
    }
  }

  lemma {:induction false} EmptyRange(txs: seq<Transaction>, open: set<nat>, category: nat, a: string)
    ensures SpendMinor(txs, open, category, a, a) == 0
  {
    if txs != [] {
      EmptyRange(txs[..|txs| - 1], open, category, a);
    }
  }

  lemma OneMoreMonth(txs: seq<Transaction>, open: set<nat>, category: nat, index: nat, end: nat)
    requires index < end < TEXT_MONTHS
    ensures SpendBetween(txs, open, category, index, end)
         == SpendBetween(txs, open, category, index, end - 1) + SpendBetween(txs, open, category, end - 1, end)
  {
    if index < end - 1 {
      MonthsAscend(index, end - 1);
    }
    MonthRangeOrdered(end - 1);
    RangesAdd(txs, open, category, MonthStart(index), MonthStart(end - 1), MonthStart(end));
  }

  /**
   * A category's spend over consecutive months adds up to its spend over the
   * whole range, whatever the months, December to January included.
   */
  lemma {:induction false} MonthsConserveSpend(txs: seq<Transaction>, open: set<nat>, category: nat, index: nat,
                                               end: nat)
    requires index <= end < TEXT_MONTHS
    ensures SpendOverMonths(txs, open, category, index, end) == SpendBetween(txs, open, category, index, end)
    decreases end
  {
    if index == end {
      EmptyRange(txs, open, category, MonthStart(index));
    } else {
      MonthsConserveSpend(txs, open, category, index, end - 1);
      OneMoreMonth(txs, open, category, index, end);
    }
  }

  function Ids(categories: seq<Category>): set<nat> {
    set i | 0 <= i < |categories| :: categories[i].id
  }

  ghost predicate DistinctIds(categories: seq<Category>) {
    forall i, j :: 0 <= i < j < |categories| ==> categories[i].id != categories[j].id
  }

  /** The qualifying debits of a range that carry one of these categories. */
  function TotalMinor(txs: seq<Transaction>, open: set<nat>, ids: set<nat>, from: string, to: string): int {
    if txs == [] then 0
    else
      var last := txs[|txs| - 1];
      TotalMinor(txs[..|txs| - 1], open, ids, from, to)
      + if last.category.Some? && last.category.value in ids && Qualifies(last, open) && InRange(last.time, from, to)
        then last.amount else 0
  }

  lemma TotalSnoc(txs: seq<Transaction>, t: Transaction, open: set<nat>, ids: set<nat>, from: string, to: string)
    ensures TotalMinor([], open, ids, from, to) == 0
    ensures TotalMinor(txs + [t], open, ids, from, to) ==
            TotalMinor(txs, open, ids, from, to)
            + if && t.debit && !t.deleted && t.id !in open && t.category.Some? && t.category.value in ids
                 && !TextLess(t.time, from) && TextLess(t.time, to) then t.amount else 0
  {
    assert (txs + [t])[..|txs|] == txs;
  }

  /** What the rows of every month in a span of months show in total. */
  function ReportedMinor(txs: seq<Transaction>, open: set<nat>, live: seq<Category>, index: nat, end: nat): int
    requires index <= end
  {
    if live == [] then 0
    else ReportedMinor(txs, open, live[..|live| - 1], index, end)
         + SpendOverMonths(txs, open, live[|live| - 1].id, index, end)
  }

  lemma {:induction false} AddCategory(txs: seq<Transaction>, open: set<nat>, ids: set<nat>, id: nat, from: string,
                                       to: string)
    requires id !in ids
    ensures TotalMinor(txs, open, ids + {id}, from, to)
         == TotalMinor(txs, open, ids, from, to) + SpendMinor(txs, open, id, from, to)
  {
    if txs != [] {
      AddCategory(txs[..|txs| - 1], open, ids, id, from, to);
    }
  }

  lemma {:induction false} NoCategories(txs: seq<Transaction>, open: set<nat>, from: string, to: string)
    ensures TotalMinor(txs, open, {}, from, to) == 0
  {
    if txs != [] {
      NoCategories(txs[..|txs| - 1], open, from, to);
    }
  }

  /**
   * Nothing is lost or counted twice: the rows of all live categories over
   * consecutive months add up to the qualifying debits of the whole range.
   */
  lemma {:induction false} ReportConservesMoney(txs: seq<Transaction>, open: set<nat>, live: seq<Category>,
                                                index: nat, end: nat)
    requires DistinctIds(live) && index <= end < TEXT_MONTHS
    ensures ReportedMinor(txs, open, live, index, end)
         == TotalMinor(txs, open, Ids(live), MonthStart(index), MonthStart(end))
  {
    var from, to := MonthStart(index), MonthStart(end);
    if live == [] {
      NoCategories(txs, open, from, to);
      assert Ids(live) == {};
    } else {
      var front := live[..|live| - 1];
      var last := live[|live| - 1];
      assert ReportedMinor(txs, open, front, index, end) == TotalMinor(txs, open, Ids(front), from, to) by {
        ReportConservesMoney(txs, open, front, index, end);
      }
      assert SpendOverMonths(txs, open, last.id, index, end) == SpendMinor(txs, open, last.id, from, to) by {
        MonthsConserveSpend(txs, open, last.id, index, end);
      }
      assert TotalMinor(txs, open, Ids(live), from, to)
          == TotalMinor(txs, open, Ids(front), from, to) + SpendMinor(txs, open, last.id, from, to) by {
        assert Ids(live) == Ids(front) + {last.id} && last.id !in Ids(front);
        AddCategory(txs, open, Ids(front), last.id, from, to);
      }
    }
  }

  // ---- Spend trend ----------------------------------------------------------------------

  /** The period format and the length of the window of each granularity, in seconds. */
  function Window(granularity: string): Option<(string, nat)> {
    if granularity == "daily" then Some(("%Y-%m-%d", 30 * DAY_S))
    else if granularity == "weekly" then Some(("%Y-%W", 12 * 7 * DAY_S))
    else if granularity == "monthly" then Some(("%Y-%m", 365 * DAY_S))
    else None
  }

  lemma WindowMeans(granularity: string)
    ensures Window("daily") == Some(("%Y-%m-%d", 2592000))
    ensures Window("weekly") == Some(("%Y-%W", 7257600))
    ensures Window("monthly") == Some(("%Y-%m", 31536000))
    ensures granularity !in {"daily", "weekly", "monthly"} ==> Window(granularity) == None
  {
  }

  /** A period and the sum of its minor units, as the query groups them. */
  datatype Bucket = Bucket(period: string, totalMinor: int)

  datatype TrendPoint = TrendPoint(period: string, totalSpend: real)

  function Shown(points: seq<Bucket>): seq<TrendPoint> {
    seq(|points|, i requires 0 <= i < |points| => TrendPoint(points[i].period, Minor(points[i].totalMinor)))
  }

  function SumShown(points: seq<TrendPoint>): real {
    if points == [] then 0.0 else points[0].totalSpend + SumShown(points[1..])
  }

  lemma {:induction false} ShownConserves(points: seq<Bucket>)
    ensures SumShown(Shown(points)) == Minor(SumPoints(points))
  {
    if points != [] {
      ShownConserves(points[1..]);
      assert Shown(points)[1..] == Shown(points[1..]);
    }
  }

  predicate InTrend(t: Transaction, open: set<nat>, since: string) {
    Qualifies(t, open) && !TextLess(t.time, since)
  }

  /** Adds an amount to its period's bucket, opening the bucket in period order. */
  function Bucketed(points: seq<Bucket>, period: string, amount: int): seq<Bucket> {
    if points == [] || TextLess(period, points[0].period) then [Bucket(period, amount)] + points
    else if period == points[0].period then [Bucket(period, points[0].totalMinor + amount)] + points[1..]
    else [points[0]] + Bucketed(points[1..], period, amount)
  }

  ghost predicate Ascending(points: seq<Bucket>) {
    forall i, j :: 0 <= i < j < |points| ==> TextLess(points[i].period, points[j].period)
  }

  /** The sum of one period's bucket, if there is one. */
  function BucketOf(points: seq<Bucket>, period: string): Option<int> {
    if points == [] then None
    else if points[0].period == period then Some(points[0].totalMinor)
    else BucketOf(points[1..], period)
  }

  function SumPoints(points: seq<Bucket>): int {
    if points == [] then 0 else points[0].totalMinor + SumPoints(points[1..])
  }

  /** The qualifying debits since a time, of one period or, with None, of all. */
  function SumSince(txs: seq<Transaction>, open: set<nat>, since: string, periodOf: string -> string,
                    period: Option<string>): int {
    if txs == [] then 0
    else
      var last := txs[|txs| - 1];
      SumSince(txs[..|txs| - 1], open, since, periodOf, period)
      + if InTrend(last, open, since) && (period == None || period == Some(periodOf(last.time)))
        then last.amount else 0
  }

  predicate HasPeriod(txs: seq<Transaction>, open: set<nat>, since: string, periodOf: string -> string,
                      period: string) {
    exists i :: 0 <= i < |txs| && InTrend(txs[i], open, since) && periodOf(txs[i].time) == period
  }

  lemma {:induction false} BucketedKeepsOrder(points: seq<Bucket>, period: string, amount: int)
    requires Ascending(points)
    ensures Ascending(Bucketed(points, period, amount))
    ensures forall p :: p in Bucketed(points, period, amount) ==>
              p.period == period || exists q :: q in points && q.period == p.period
    ensures SumPoints(Bucketed(points, period, amount)) == SumPoints(points) + amount
  {
    if points == [] {
    } else if TextLess(period, points[0].period) {
      forall j | 0 < j < |points| ensures TextLess(period, points[j].period) {
        TextLessTransitive(period, points[0].period, points[j].period);
      }
    } else if period == points[0].period {
    } else {
      TextLessTotal(period, points[0].period);
      BucketedKeepsOrder(points[1..], period, amount);
      var rest := Bucketed(points[1..], period, amount);
      forall j | 0 <= j < |rest| ensures TextLess(points[0].period, rest[j].period) {
        if rest[j].period != period {
          var q :| q in points[1..] && q.period == rest[j].period;
        }
      }
    }
  }

  lemma {:induction false} BucketedUpdates(points: seq<Bucket>, period: string, amount: int, other: string)
    requires Ascending(points)
    ensures BucketOf(Bucketed(points, period, amount), other) ==
            if other != period then BucketOf(points, other)
            else Some(amount + BucketOf(points, period).GetOr(0))
  {
    if points == [] {
      assert Bucketed(points, period, amount) == [Bucket(period, amount)];
    } else if TextLess(period, points[0].period) {
      AbsentBelow(points, period);
      assert Bucketed(points, period, amount)[1..] == points;
    } else if period == points[0].period {
    } else {
      var rest := Bucketed(points[1..], period, amount);
      BucketedUpdates(points[1..], period, amount, other);
      assert Bucketed(points, period, amount) == [points[0]] + rest;
      assert ([points[0]] + rest)[1..] == rest;
      assert BucketOf(points, period) == BucketOf(points[1..], period);
    }
  }

  lemma {:induction false} AbsentBelow(points: seq<Bucket>, period: string)
    requires Ascending(points) && (points != [] ==> TextLess(period, points[0].period))
    ensures BucketOf(points, period).None?
  {
    if points != [] {
      TextLessTotal(period, points[0].period);
      if |points| > 1 { TextLessTransitive(period, points[0].period, points[1].period); }
      AbsentBelow(points[1..], period);
    }
  }

  lemma PeriodsSnoc(txs: seq<Transaction>, t: Transaction, open: set<nat>, since: string, periodOf: string -> string,
                    p: string)
    ensures HasPeriod(txs + [t], open, since, periodOf, p) <==>
            HasPeriod(txs, open, since, periodOf, p) || (InTrend(t, open, since) && periodOf(t.time) == p)
  {
    var all := txs + [t];
    assert forall i :: 0 <= i < |txs| ==> all[i] == txs[i];
    assert all[|txs|] == t;
    if HasPeriod(txs, open, since, periodOf, p) {
      var i :| 0 <= i < |txs| && InTrend(txs[i], open, since) && periodOf(txs[i].time) == p;
      assert InTrend(all[i], open, since);
    }
  }

  lemma {:induction false} NoPeriodNoSum(txs: seq<Transaction>, open: set<nat>, since: string,
                                         periodOf: string -> string, p: string)
    ensures !HasPeriod(txs, open, since, periodOf, p) ==> SumSince(txs, open, since, periodOf, Some(p)) == 0
  {
    if txs != [] {
      var n := |txs| - 1;
      assert txs[..n] + [txs[n]] == txs;
      PeriodsSnoc(txs[..n], txs[n], open, since, periodOf, p);
      NoPeriodNoSum(txs[..n], open, since, periodOf, p);
    }
  }

  /** A period has a bucket with exactly its own debits, or none when nothing qualifies. */
  ghost predicate BucketExact(points: seq<Bucket>, txs: seq<Transaction>, open: set<nat>, since: string,
                              periodOf: string -> string, p: string)
  {
    BucketOf(points, p) ==
    if HasPeriod(txs, open, since, periodOf, p) then Some(SumSince(txs, open, since, periodOf, Some(p))) else None
  }

  ghost predicate TrendOf(points: seq<Bucket>, txs: seq<Transaction>, open: set<nat>, since: string,
                          periodOf: string -> string)
  {
    && Ascending(points)
    && SumPoints(points) == SumSince(txs, open, since, periodOf, None)
    && forall p :: BucketExact(points, txs, open, since, periodOf, p)
  }

  lemma BucketStep(points: seq<Bucket>, txs: seq<Transaction>, t: Transaction, open: set<nat>, since: string,
                   periodOf: string -> string, p: string)
    requires Ascending(points)
    requires BucketExact(points, txs, open, since, periodOf, p)
    ensures BucketExact(if InTrend(t, open, since) then Bucketed(points, periodOf(t.time), t.amount) else points,
                        txs + [t], open, since, periodOf, p)
  {
    assert (txs + [t])[..|txs|] == txs;
    PeriodsSnoc(txs, t, open, since, periodOf, p);
    BucketedUpdates(points, periodOf(t.time), t.amount, p);
    NoPeriodNoSum(txs, open, since, periodOf, p);
  }

  lemma TrendStep(points: seq<Bucket>, txs: seq<Transaction>, t: Transaction, open: set<nat>, since: string,
                  periodOf: string -> string)
    requires TrendOf(points, txs, open, since, periodOf)
    ensures TrendOf(if InTrend(t, open, since) then Bucketed(points, periodOf(t.time), t.amount) else points,
                    txs + [t], open, since, periodOf)
  {
    assert (txs + [t])[..|txs|] == txs;
    BucketedKeepsOrder(points, periodOf(t.time), t.amount);
    var next := if InTrend(t, open, since) then Bucketed(points, periodOf(t.time), t.amount) else points;
    forall p ensures BucketExact(next, txs + [t], open, since, periodOf, p) {
      assert BucketExact(points, txs, open, since, periodOf, p);
      BucketStep(points, txs, t, open, since, periodOf, p);
    }
  }

  /** A bucket holds a sum exactly when it stands in the list with it. */
  lemma {:induction false} BucketMeans(points: seq<Bucket>, p: string, sum: int)
    requires Ascending(points)
    ensures BucketOf(points, p) == Some(sum) <==> Bucket(p, sum) in points
  {
    if points != [] {
      BucketMeans(points[1..], p, sum);
      assert points == [points[0]] + points[1..];
      if points[0].period == p {
        forall j | 0 < j < |points| ensures points[j].period != p {
          TextLessTotal(points[0].period, points[j].period);
        }
      }
    }
  }

  lemma {:induction false} SameBuckets(points: seq<Bucket>, others: seq<Bucket>)
    requires Ascending(points) && Ascending(others)
    requires forall p :: BucketOf(points, p) == BucketOf(others, p)
    ensures points == others
  {
    if points == [] || others == [] {
      if points != [] { assert BucketOf(points, points[0].period).Some?; }
      if others != [] { assert BucketOf(others, others[0].period).Some?; }
    } else {
      FirstBucket(points, others);
      forall p ensures BucketOf(points[1..], p) == BucketOf(others[1..], p) {
        if p == points[0].period {
          AbsentBelow(points[1..], p);
          AbsentBelow(others[1..], p);
        } else {
          assert BucketOf(points, p) == BucketOf(points[1..], p) && BucketOf(others, p) == BucketOf(others[1..], p);
        }
      }
      SameBuckets(points[1..], others[1..]);
    }
  }

  /** The earliest periods of two lists with the same buckets agree. */
  lemma FirstBucket(points: seq<Bucket>, others: seq<Bucket>)
    requires Ascending(points) && Ascending(others) && points != [] && others != []
    requires forall p :: BucketOf(points, p) == BucketOf(others, p)
    ensures points[0] == others[0]
  {
    TextLessTotal(points[0].period, others[0].period);
    if TextLess(points[0].period, others[0].period) {
      AbsentBelow(others, points[0].period);
    } else if TextLess(others[0].period, points[0].period) {
      AbsentBelow(points, others[0].period);
    }
    assert BucketOf(points, points[0].period) == BucketOf(others, others[0].period);
  }

  /** The transactions determine the trend. */
  lemma TrendIsUnique(points: seq<Bucket>, others: seq<Bucket>, txs: seq<Transaction>, open: set<nat>, since: string,
                      periodOf: string -> string)
    requires TrendOf(points, txs, open, since, periodOf) && TrendOf(others, txs, open, since, periodOf)
    ensures points == others
  {
    forall p ensures BucketOf(points, p) == BucketOf(others, p) {
      assert BucketExact(points, txs, open, since, periodOf, p);
      assert BucketExact(others, txs, open, since, periodOf, p);
    }
    SameBuckets(points, others);
  }

  /** A credit, a deleted transaction, one in an open cluster or one before the window leaves the trend as it was. */
  lemma {:induction false} SkippedLeavesTrend(points: seq<Bucket>, next: seq<Bucket>, txs: seq<Transaction>,
                                              t: Transaction,
                                              open: set<nat>, since: string, periodOf: string -> string)
    requires TrendOf(points, txs, open, since, periodOf) && TrendOf(next, txs + [t], open, since, periodOf)
    requires !t.debit || t.deleted || t.id in open || TextLess(t.time, since)
    ensures next == points
  {
    TrendStep(points, txs, t, open, since, periodOf);
    TrendIsUnique(next, points, txs + [t], open, since, periodOf);
  }

  /** Any other adds its amount to its own period, opening it if need be, and leaves every other period alone. */
  lemma {:induction false} DebitRaisesItsPeriod(points: seq<Bucket>, next: seq<Bucket>, txs: seq<Transaction>,
                                                t: Transaction,
                                                open: set<nat>, since: string, periodOf: string -> string, p: string)
    requires TrendOf(points, txs, open, since, periodOf) && TrendOf(next, txs + [t], open, since, periodOf)
    requires t.debit && !t.deleted && t.id !in open && !TextLess(t.time, since)
    ensures BucketOf(next, p) ==
            if p == periodOf(t.time) then Some(t.amount + BucketOf(points, p).GetOr(0)) else BucketOf(points, p)
  {
    var after := Bucketed(points, periodOf(t.time), t.amount);
    assert next == after by {
      TrendStep(points, txs, t, open, since, periodOf);
      TrendIsUnique(next, after, txs + [t], open, since, periodOf);
    }
    BucketedUpdates(points, periodOf(t.time), t.amount, p);
  }

  /** Some transaction of the trend has a time that yields no period text. */
  predicate HasUndated(txs: seq<Transaction>, open: set<nat>, since: string, periodOf: string -> Option<string>) {
    exists i :: 0 <= i < |txs| && InTrend(txs[i], open, since) && periodOf(txs[i].time).None?
  }

  function PeriodText(periodOf: string -> Option<string>): string -> string {
    time => periodOf(time).GetOr("")
  }

  /** The query: groups, or None when a row it has to show has no period. */
  method GroupByPeriod(txs: seq<Transaction>, open: set<nat>, since: string, periodOf: string -> Option<string>)
    returns (points: Option<seq<Bucket>>)
    ensures points.None? <==> HasUndated(txs, open, since, periodOf)
    ensures points.Some? ==> TrendOf(points.value, txs, open, since, PeriodText(periodOf))
  {
    var period := PeriodText(periodOf);
    var buckets: seq<Bucket> := [];
    var i := 0;
    while i < |txs|
      invariant 0 <= i <= |txs|
      invariant TrendOf(buckets, txs[..i], open, since, period)
      invariant forall k :: 0 <= k < i && InTrend(txs[k], open, since) ==> periodOf(txs[k].time).Some?
    {
      var t := txs[i];
      if InTrend(t, open, since) && periodOf(t.time).None? {
        return None;
      }
      TrendStep(buckets, txs[..i], t, open, since, period);
      assert txs[..i] + [t] == txs[..i + 1];
      buckets := if InTrend(t, open, since) then Bucketed(buckets, period(t.time), t.amount) else buckets;
      i := i + 1;
    }
    assert txs[..i] == txs;
    points := Some(buckets);
  }

  /**
   * The trend over the granularity's window is strictly ordered by period, its
   * points add up to the qualifying total, and each period has a point with
   * exactly its own debits, or none when it has no qualifying transaction.  The
   * formatter and `strftime` are SQLite's and the date library's.
   */
  method FetchSpendTrend(txs: seq<Transaction>, open: set<nat>, granularity: string, nowS: int,
                         formatTime: int -> string, strftime: string -> string -> Option<string>)
    returns (results: Result<seq<TrendPoint>, string>)
    ensures results.Err? <==>
              var w := Window(granularity);
              w.None? || HasUndated(txs, open, formatTime(nowS - w.value.1), strftime(w.value.0))
    ensures results.Ok? ==>
              var (format, window) := Window(granularity).value;
              var since, period := formatTime(nowS - window), PeriodText(strftime(format));
              && (exists points: seq<Bucket> ::
                    && TrendOf(points, txs, open, since, period)
                    && |results.value| == |points|
                    && forall i :: 0 <= i < |points| ==>
                         results.value[i] == TrendPoint(points[i].period, points[i].totalMinor as real / 100.0))
              && SumShown(results.value) == Minor(SumSince(txs, open, since, period, None))
  {
    var w := Window(granularity);
    if w.None? {
      return Err("invalid granularity");
    }
    var (format, window) := w.value;
    var since := formatTime(nowS - window);
    var points := GroupByPeriod(txs, open, since, strftime(format));
    if points.None? {
      return Err("invalid column type");
    }
    var rows: seq<TrendPoint> := [];
    var i := 0;
    while i < |points.value|
      invariant 0 <= i <= |points.value|
      invariant rows == Shown(points.value[..i])
    {
      var row := points.value[i];
      rows := rows + [TrendPoint(row.period, Minor(row.totalMinor))];
      i := i + 1;
    }
    assert points.value[..i] == points.value;
    ShownConserves(points.value);
    results := Ok(rows);
  }
}
