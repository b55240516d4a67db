/**
 * Folding partial progress events into task records, and the store of tasks and
 * notifications that does so.
 *
 * Absent and null fields are both `None`, except for the ETA, where an explicit
 * null clears the estimate.  Counters and percentages are reals.
 */
module Tasks {
  import opened Prelude

  datatype Category = Ingestion | Statements | Normalization | Database | System
  datatype Status = Running | Completed | Failed | Cancelled | Cancelling

  /** A field that distinguishes "not mentioned" from "explicitly null". */
  datatype Field<+T> = Unmentioned | Null | Given(value: T)

  type Meta = map<string, string>

  datatype Task = Task(
    id: string,
    domainKey: string,
    category: Category,
    title: string,
    description: string,
    status: Status,
    current: real,
    total: real,
    progressPct: real,
    eta: Option<real>,
    startedAt: nat,
    updatedAt: nat,
    finishedAt: Option<nat>,
    errorMessage: Option<string>,
    cancelable: bool,
    meta: Meta)

  datatype Update = Update(
    id: string,
    category: Category,
    title: string,
    domainKey: Option<string>,
    description: Option<string>,
    status: Option<Status>,
    current: Option<real>,
    total: Option<real>,
    progressPct: Option<real>,
    eta: Field<real>,
    finishedAt: Option<nat>,
    errorMessage: Option<string>,
    cancelable: Option<bool>,
    meta: Meta)

  /** The incoming value if there is one, else what was there. */
  function Or<T>(incoming: Option<T>, previous: Option<T>): Option<T> {
    if incoming.Some? then incoming else previous
  }

  /** JavaScript's Math.round. */
  function Round(x: real): real {
    (x + 0.5).Floor as real
  }

  function DerivePercent(current: real, total: real, fallback: Option<real>): real {
    if total > 0.0 then
      var pct := Round(current / total * 100.0);
      if pct < 100.0 then pct else 100.0
    else fallback.GetOr(0.0)
  }

  function MergeEta(incoming: Field<real>, previous: Option<real>): Option<real> {
    match incoming
    case Unmentioned => previous
    case Null => None
    case Given(eta) => Some(eta)
  }

  function MergeFinishedAt(incoming: Update, previous: Option<nat>, now: nat): Option<nat> {
    if incoming.finishedAt.Some? then incoming.finishedAt
    else if incoming.status.Some? && incoming.status != Some(Running) then Some(now)
    else previous
  }

  function Known<T>(existing: Option<Task>, field: Task -> T): Option<T> {
    if existing.Some? then Some(field(existing.value)) else None
  }

  function MergeTask(existing: Option<Task>, incoming: Update, now: nat): Task {
    var current := Or(incoming.current, Known(existing, (t: Task) => t.current)).GetOr(0.0);
    var total := Or(incoming.total, Known(existing, (t: Task) => t.total)).GetOr(0.0);
    Task(
      incoming.id,
      Or(incoming.domainKey, Known(existing, (t: Task) => t.domainKey)).GetOr(incoming.id),
      incoming.category,
      incoming.title,
      Or(incoming.description, Known(existing, (t: Task) => t.description)).GetOr(""),
      Or(incoming.status, Known(existing, (t: Task) => t.status)).GetOr(Running),
      current,
      total,
      incoming.progressPct.GetOr(DerivePercent(current, total, Known(existing, (t: Task) => t.progressPct))),
      MergeEta(incoming.eta, if existing.Some? then existing.value.eta else None),
      if existing.Some? then existing.value.startedAt else now,
      now,
      MergeFinishedAt(incoming, if existing.Some? then existing.value.finishedAt else None, now),
      Or(incoming.errorMessage, if existing.Some? then existing.value.errorMessage else None),
      Or(incoming.cancelable, Known(existing, (t: Task) => t.cancelable)).GetOr(false),
      (if existing.Some? then existing.value.meta else map[]) + incoming.meta)
  }

  // ---- Folding a sequence of events -----------------------------------------------

  datatype Event = Event(update: Update, at: nat)

  function Fold(events: seq<Event>): Task
    requires events != []
  {
    var n := |events| - 1;
    MergeTask(if n == 0 then None else Some(Fold(events[..n])), events[n].update, events[n].at)
  }

  // What one event supplies for a field.
  function GivenDomainKey(e: Event): Option<string> { e.update.domainKey }
  function GivenDescription(e: Event): Option<string> { e.update.description }
  function GivenStatus(e: Event): Option<Status> { e.update.status }
  function GivenCurrent(e: Event): Option<real> { e.update.current }
  function GivenTotal(e: Event): Option<real> { e.update.total }
  function GivenError(e: Event): Option<string> { e.update.errorMessage }
  function GivenCancelable(e: Event): Option<bool> { e.update.cancelable }

  /** An explicit null counts as an answer for the ETA. */
  function GivenEta(e: Event): Option<Option<real>> {
    match e.update.eta
    case Unmentioned => None
    case Null => Some(None)
    case Given(eta) => Some(Some(eta))
  }

  /** An explicit completion time, or the arrival of any status other than running. */
  function GivenFinish(e: Event): Option<nat> {
    if e.update.finishedAt.Some? then e.update.finishedAt
    else if e.update.status.Some? && e.update.status.value != Running then Some(e.at)
    else None
  }

  /** The last value that any event supplied, if one did. */
  function LastGiven<T>(events: seq<Event>, given: Event -> Option<T>): Option<T> {
    if events == [] then None
    else if given(events[|events| - 1]).Some? then given(events[|events| - 1])
    else LastGiven(events[..|events| - 1], given)
  }

  /** The last value supplied for one meta key. */
  function LastMeta(events: seq<Event>, key: string): Option<string> {
    if events == [] then None
    else
      var meta := events[|events| - 1].update.meta;
      if key in meta then Some(meta[key]) else LastMeta(events[..|events| - 1], key)
  }

  lemma {:induction false} LastGivenMeans<T>(events: seq<Event>, given: Event -> Option<T>)
    ensures LastGiven(events, given).None? <==> forall i :: 0 <= i < |events| ==> given(events[i]).None?
    ensures LastGiven(events, given).Some? ==>
              exists i :: 0 <= i < |events| && given(events[i]) == LastGiven(events, given)
                          && forall j :: i < j < |events| ==> given(events[j]).None?
  {
    if events != [] {
      var n := |events| - 1;
      var front := events[..n];
      LastGivenMeans(front, given);
      if given(events[n]).None? {
        if LastGiven(front, given).Some? {
          var i :| 0 <= i < n && given(front[i]) == LastGiven(front, given)
                   && forall j :: i < j < n ==> given(front[j]).None?;
          assert given(events[i]) == LastGiven(events, given);
          forall j | i < j < |events| ensures given(events[j]).None? {
            if j < n { assert front[j] == events[j]; }
          }
        } else {
          forall i | 0 <= i < |events| ensures given(events[i]).None? {
            if i < n { assert front[i] == events[i]; }
          }
        }
      }
    }
  }

  lemma {:induction false} FoldKeepsTexts(events: seq<Event>)
    requires events != []
    ensures var t := Fold(events);
            && t.domainKey == LastGiven(events, GivenDomainKey).GetOr(events[0].update.id)
            && t.description == LastGiven(events, GivenDescription).GetOr("")
            && t.errorMessage == LastGiven(events, GivenError)
            && t.cancelable == LastGiven(events, GivenCancelable).GetOr(false)
  {
    if |events| > 1 {
      FoldKeepsTexts(events[..|events| - 1]);
    } else {
      assert events[..0] == [];
    }
  }

  lemma {:induction false} FoldKeepsCounters(events: seq<Event>)
    requires events != []
    ensures var t := Fold(events);
            && t.current == LastGiven(events, GivenCurrent).GetOr(0.0)
            && t.total == LastGiven(events, GivenTotal).GetOr(0.0)
            && t.eta == LastGiven(events, GivenEta).GetOr(None)
  {
    if |events| > 1 {
      FoldKeepsCounters(events[..|events| - 1]);
    } else {
      assert events[..0] == [];
    }
  }

  lemma {:induction false} FoldKeepsLife(events: seq<Event>)
    requires events != []
    ensures var t := Fold(events);
            && t.startedAt == events[0].at
            && t.status == LastGiven(events, GivenStatus).GetOr(Running)
            && t.finishedAt == LastGiven(events, GivenFinish)
  {
    if |events| > 1 {
      FoldKeepsLife(events[..|events| - 1]);
    } else {
      assert events[..0] == [];
    }
  }

  /**
   * Folding any sequence of events gives, field by field, the last value that was
   * supplied; the record starts at the first event and keeps its identity current.
   */
  lemma {:induction false} FoldKeepsLastSupplied(events: seq<Event>)
    requires events != []
    ensures var t, last := Fold(events), events[|events| - 1];
            && t.id == last.update.id && t.category == last.update.category && t.title == last.update.title
            && t.startedAt == events[0].at && t.updatedAt == last.at
            && t.domainKey == LastGiven(events, GivenDomainKey).GetOr(events[0].update.id)
            && t.description == LastGiven(events, GivenDescription).GetOr("")
            && t.status == LastGiven(events, GivenStatus).GetOr(Running)
            && t.current == LastGiven(events, GivenCurrent).GetOr(0.0)
            && t.total == LastGiven(events, GivenTotal).GetOr(0.0)
            && t.errorMessage == LastGiven(events, GivenError)
            && t.cancelable == LastGiven(events, GivenCancelable).GetOr(false)
            && t.eta == LastGiven(events, GivenEta).GetOr(None)
            && t.finishedAt == LastGiven(events, GivenFinish)
  {
    FoldKeepsTexts(events);
    FoldKeepsCounters(events);
    FoldKeepsLife(events);
  }

  /** An event that dates the task's end: explicitly, or by any status but running. */
  predicate DatesEnd(e: Event) {
    e.update.finishedAt.Some? || (e.update.status.Some? && e.update.status.value != Running)
  }

  /**
   * A folded task is unfinished and yet carries a completion time exactly when the
   * last status supplied, if any, is running or cancelling and some event dated
   * the end; no later event takes a completion time back.
   */
  lemma {:induction false} DatedInFlightExactlyWhen(events: seq<Event>)
    requires events != []
    ensures InFlight(Fold(events)) && Fold(events).finishedAt.Some? <==>
              && LastGiven(events, GivenStatus).GetOr(Running) in {Running, Cancelling}
              && exists i :: 0 <= i < |events| && DatesEnd(events[i])
  {
    FoldKeepsLife(events);
    LastGivenMeans(events, GivenFinish);
    assert forall i :: 0 <= i < |events| ==> (GivenFinish(events[i]).Some? <==> DatesEnd(events[i]));
  }

  /** The meta of a folded record is the right-biased union of everything contributed. */
  lemma {:induction false} FoldUnitesMeta(events: seq<Event>, key: string)
    requires events != []
    ensures var t := Fold(events);
            (if key in t.meta then Some(t.meta[key]) else None) == LastMeta(events, key)
  {
    if |events| > 1 {
      FoldUnitesMeta(events[..|events| - 1], key);
    } else {
      assert events[..0] == [];
    }
  }

  predicate SensibleProgress(u: Update) {
    && (u.current.Some? ==> u.current.value >= 0.0)
    && (u.total.Some? ==> u.total.value >= 0.0)
    && (u.progressPct.Some? ==> 0.0 <= u.progressPct.value <= 100.0)
  }

  lemma DerivedPercentInRange(current: real, total: real, fallback: Option<real>)
    requires current >= 0.0
    requires fallback.Some? ==> 0.0 <= fallback.value <= 100.0
    ensures 0.0 <= DerivePercent(current, total, fallback) <= 100.0
  {
    if total > 0.0 {
      assert current / total >= 0.0;
    }
  }

  predicate SoundProgress(t: Task) {
    t.current >= 0.0 && t.total >= 0.0 && 0.0 <= t.progressPct <= 100.0
  }

  lemma MergeKeepsProgress(existing: Option<Task>, u: Update, now: nat)
    requires existing.Some? ==> SoundProgress(existing.value)
    requires SensibleProgress(u)
    ensures SoundProgress(MergeTask(existing, u, now))
  {
    var t := MergeTask(existing, u, now);
    DerivedPercentInRange(t.current, t.total, Known(existing, (k: Task) => k.progressPct));
  }

  /**
   * With non-negative counters and explicit percentages in range, progress stays
   * in 0..100; and once a total is known, an event without an explicit
   * percentage shows the counters' own ratio, capped at 100.
   */
  lemma {:induction false} ProgressInRange(events: seq<Event>)
    requires events != []
    requires forall e :: e in events ==> SensibleProgress(e.update)
    ensures var t := Fold(events);
            && SoundProgress(t)
            && (events[|events| - 1].update.progressPct.None? && t.total > 0.0 ==>
                  t.progressPct == DerivePercent(t.current, t.total, None))
  {
    var n := |events| - 1;
    assert events[n] in events;
    if n == 0 {
      MergeKeepsProgress(None, events[0].update, events[0].at);
    } else {
      ProgressInRange(events[..n]);
      MergeKeepsProgress(Some(Fold(events[..n])), events[n].update, events[n].at);
    }
  }

  /** Rounding is to the nearest whole number, halves up. */
  lemma RoundMeans(x: real, k: int)
    ensures Round(x) == k as real <==> k as real - 0.5 <= x < k as real + 0.5
  {
    var f := (x + 0.5).Floor;
    FloorIs(x + 0.5, k);
    assert (f as real).Floor == f && (k as real).Floor == k;
  }

  lemma FloorIs(y: real, k: int)
    ensures y.Floor == k <==> k as real <= y < k as real + 1.0
  {
    var f := y.Floor;
    assert f as real <= y < f as real + 1.0;
    if k < f {
      assert (k + 1) as real <= f as real;
    } else if f < k {
      assert (f + 1) as real <= k as real;
    }
  }

  /**
   * The percentage shown after any events: an explicit one as it is; otherwise the
   * counters' ratio to the nearest whole percent, halves up and at most 100, once
   * a total is known; otherwise what was shown before, or zero.
   */
  lemma {:induction false} ProgressMeans(events: seq<Event>, k: int)
    requires events != []
    ensures var t, last := Fold(events), events[|events| - 1].update;
            && (last.progressPct.Some? ==> t.progressPct == last.progressPct.value)
            && (last.progressPct.None? && t.total > 0.0
                && k as real - 0.5 <= t.current / t.total * 100.0 < k as real + 0.5 ==>
                  t.progressPct == if k < 100 then k as real else 100.0)
            && (last.progressPct.None? && t.total <= 0.0 ==>
                  t.progressPct == if |events| == 1 then 0.0 else Fold(events[..|events| - 1]).progressPct)
  {
    var t := Fold(events);
    if t.total > 0.0 { RoundMeans(t.current / t.total * 100.0, k); }
  }

  // ---- The store ----------------------------------------------------------------------

  const FEED_LIMIT := 30
  const CANCELLING_DESCRIPTION := "Cancelling operation\U{2026}"

  type TaskMap = map<string, Task>

  function Lookup(tasks: TaskMap, id: string): Option<Task> {
    if id in tasks then Some(tasks[id]) else None
  }

  /** A late running event must not undo a cancellation in progress. */
  predicate Dropped(tasks: TaskMap, u: Update) {
    u.id in tasks && tasks[u.id].status == Cancelling && u.status == Some(Running)
  }

  function AddOrUpdated(tasks: TaskMap, u: Update, now: nat): TaskMap {
    if Dropped(tasks, u) then tasks
    else tasks[u.id := MergeTask(Lookup(tasks, u.id), u, now)]
  }

  function CancelUpdate(t: Task, id: string): Update {
    Update(id, t.category, t.title, None, Some(CANCELLING_DESCRIPTION), Some(Cancelling),
           None, None, None, Unmentioned, None, None, None, map[])
  }

  function CancelRequested(tasks: TaskMap, id: string, now: nat): TaskMap {
    if id in tasks then AddOrUpdated(tasks, CancelUpdate(tasks[id], id), now) else tasks
  }

  predicate InFlight(t: Task) {
    t.status == Running || t.status == Cancelling
  }

  function ActiveOnly(tasks: TaskMap): TaskMap {
    map id | id in tasks && InFlight(tasks[id]) :: tasks[id]
  }

  datatype Item = Item(id: string, message: string, timestamp: nat)

  function Pushed(feed: seq<Item>, item: Item): seq<Item> {
    var all := [item] + feed;
    if |all| <= FEED_LIMIT then all else all[..FEED_LIMIT]
  }

  class NotificationStore {
    var tasks: TaskMap
    var notifications: seq<Item>

    /** Every record is filed under its own id, and the feed is never too long. */
    ghost predicate Valid()
      reads this
    {
      (forall id :: id in tasks ==> tasks[id].id == id) && |notifications| <= FEED_LIMIT
    }

    constructor ()
      ensures tasks == map[] && notifications == [] && Valid()
    {
      tasks, notifications := map[], [];
    }

    method AddOrUpdateTask(u: Update, now: nat)
      requires Valid()
      modifies this`tasks
      ensures Valid() && tasks == Apply(old(tasks), Advance(u, now))
      ensures u.id in tasks && forall id :: id != u.id ==> Lookup(tasks, id) == Lookup(old(tasks), id)
    {
      var existing := Lookup(tasks, u.id);
      if existing.Some? && existing.value.status == Cancelling && u.status == Some(Running) {
        return;
      }
      tasks := tasks[u.id := MergeTask(existing, u, now)];
    }

    /** Afterwards the task is unknown and every other one is exactly as it was. */
    method RemoveTask(id: string)
      requires Valid()
      modifies this`tasks
      ensures Valid()
      ensures tasks == Apply(old(tasks), Remove(id)) && Lookup(tasks, id) == None
      ensures forall other :: other != id ==> Lookup(tasks, other) == Lookup(old(tasks), other)
    {
      tasks := tasks - {id};
    }

    /** Returns the scan account the backend is asked to cancel, if the task names one. */
    method CancelTask(id: string, now: nat) returns (scanAccount: Option<string>)
      requires Valid()
      modifies this`tasks
      ensures Valid() && tasks == Apply(old(tasks), RequestCancel(id, now))
      ensures tasks.Keys == old(tasks).Keys && (id in tasks ==> IsCancelling(tasks, id))
      ensures scanAccount ==
              if id in old(tasks) && "account_id" in old(tasks)[id].meta && old(tasks)[id].meta["account_id"] != ""
              then Some(old(tasks)[id].meta["account_id"]) else None
    {
      scanAccount := None;
      if id !in tasks {
        return;
      }
      var task := tasks[id];
      AddOrUpdateTask(CancelUpdate(task, id), now);
      if "account_id" in task.meta && task.meta["account_id"] != "" {
        scanAccount := Some(task.meta["account_id"]);
      }
    }

    method ClearCompletedTasks()
      requires Valid()
      modifies this`tasks
      ensures Valid() && tasks == Apply(old(tasks), ClearCompleted)
      ensures forall id :: id in tasks <==> id in old(tasks) && old(tasks)[id].status in {Running, Cancelling}
      ensures forall id :: id in tasks ==> tasks[id] == old(tasks)[id]
    {
      var activeOnly: TaskMap := map[];
      var pending := tasks.Keys;
      while pending != {}
        invariant pending <= tasks.Keys && tasks == old(tasks)
        invariant activeOnly == map id | id in tasks && id !in pending && InFlight(tasks[id]) :: tasks[id]
        decreases |pending|
      {
        var id :| id in pending;
        if InFlight(tasks[id]) {
          activeOnly := activeOnly[id := tasks[id]];
        }
        pending := pending - {id};
      }
      tasks := activeOnly;
    }

    method AddNotification(item: Item)
      requires Valid()
      modifies this`notifications
      ensures Valid() && notifications == Pushed(old(notifications), item)
      ensures forall i :: 0 < i < |notifications| ==> notifications[i] == old(notifications)[i - 1]
      ensures notifications[0] == item && |notifications| == Min(|old(notifications)| + 1, 30)
    {
      notifications := [item] + notifications;
      if |notifications| > FEED_LIMIT {
        notifications := notifications[..FEED_LIMIT];
      }
    }
  }

  datatype Op =
    | Advance(update: Update, at: nat)
    | RequestCancel(id: string, at: nat)
    | Remove(id: string)
    | ClearCompleted

  function Apply(tasks: TaskMap, op: Op): TaskMap {
    match op
    case Advance(update, at) => AddOrUpdated(tasks, update, at)
    case RequestCancel(id, at) => CancelRequested(tasks, id, at)
    case Remove(id) => tasks - {id}
    case ClearCompleted => ActiveOnly(tasks)
  }

  function Run(tasks: TaskMap, ops: seq<Op>): TaskMap {
    if ops == [] then tasks else Apply(Run(tasks, ops[..|ops| - 1]), ops[|ops| - 1])
  }

  predicate IsCancelling(tasks: TaskMap, id: string) {
    id in tasks && tasks[id].status == Cancelling
  }

  /** The only ways out of a cancellation: an explicit final status, or removing the task. */
  predicate EndsCancellation(op: Op, id: string) {
    || (op.Remove? && op.id == id)
    || (op.Advance? && op.update.id == id && op.update.status.Some?
        && op.update.status.value != Running && op.update.status.value != Cancelling)
  }

  lemma CancellationEndsExactlyWhen(tasks: TaskMap, op: Op, id: string)
    requires IsCancelling(tasks, id)
    ensures !IsCancelling(Apply(tasks, op), id) <==> EndsCancellation(op, id)
  {
  }

  /**
   * Asking to cancel marks the task as cancelling and keeps its counters, start
   * and meta, but also dates its end: a task still running to a stop carries a
   * completion time.
   */
  lemma CancelRequestMarks(tasks: TaskMap, id: string, at: nat)
    requires id in tasks
    ensures var before, after := tasks[id], CancelRequested(tasks, id, at);
            && after.Keys == tasks.Keys
            && IsCancelling(after, id)
            && after[id].current == before.current && after[id].total == before.total
            && after[id].startedAt == before.startedAt && after[id].meta == before.meta
            && after[id].finishedAt == Some(at) && after[id].updatedAt == at
            && after[id].description == "Cancelling operation\U{2026}"
            && after[id].title == before.title && after[id].category == before.category
            && after[id].domainKey == before.domainKey && after[id].errorMessage == before.errorMessage
            && after[id].cancelable == before.cancelable && after[id].eta == before.eta
            && (forall other :: other in tasks && other != id ==> after[other] == tasks[other])
  {
    assert tasks[id].meta + map[] == tasks[id].meta;
  }

  /** A cancelling task stays cancelling through any operations that do not end its cancellation. */
  lemma {:induction false} CancellationPersists(tasks: TaskMap, ops: seq<Op>, id: string)
    requires IsCancelling(tasks, id)
    requires forall op :: op in ops ==> !EndsCancellation(op, id)
    ensures IsCancelling(Run(tasks, ops), id)
  {
    if ops != [] {
      CancellationPersists(tasks, ops[..|ops| - 1], id);
      CancellationEndsExactlyWhen(Run(tasks, ops[..|ops| - 1]), ops[|ops| - 1], id);
    }
  }

  /** Operations that reach this task only as running events, if at all. */
  predicate OnlyRunningFor(op: Op, id: string) {
    match op
    case Advance(update, _) => update.id == id ==> update.status == Some(Running)
    case RequestCancel(other, _) => other != id
    case Remove(other) => other != id
    case ClearCompleted => true
  }

  /** Late running events leave a cancelling record exactly as it was. */
  lemma {:induction false} RunningEventsAreIgnored(tasks: TaskMap, ops: seq<Op>, id: string)
    requires IsCancelling(tasks, id)
    requires forall op :: op in ops ==> OnlyRunningFor(op, id)
    ensures id in Run(tasks, ops) && Run(tasks, ops)[id] == tasks[id]
  {
    if ops != [] {
      RunningEventsAreIgnored(tasks, ops[..|ops| - 1], id);
      assert OnlyRunningFor(ops[|ops| - 1], id);
    }
  }

  function EventsFor(events: seq<Event>, id: string): seq<Event> {
    if events == [] then []
    else
      var earlier := EventsFor(events[..|events| - 1], id);
      var last := events[|events| - 1];
      if last.update.id == id then earlier + [last] else earlier
  }

  function Replay(events: seq<Event>): TaskMap {
    if events == [] then map[]
    else AddOrUpdated(Replay(events[..|events| - 1]), events[|events| - 1].update, events[|events| - 1].at)
  }

  /**
   * Of one task's own events, those the store heeds: a running event that comes
   * while the last status heeded is cancelling is dropped.
   */
  function Heeded(events: seq<Event>): seq<Event> {
    if events == [] then []
    else
      var earlier := Heeded(events[..|events| - 1]);
      var last := events[|events| - 1];
      if last.update.status == Some(Running) && LastGiven(earlier, GivenStatus) == Some(Cancelling) then earlier
      else earlier + [last]
  }

  /**
   * After any events, cancellations included, each record in the store is the fold
   * of the events of that task that were heeded: tasks interleave without
   * disturbing one another.
   */
  lemma {:induction false} StoreFoldsEachTask(events: seq<Event>, id: string)
    ensures var mine := Heeded(EventsFor(events, id));
            Lookup(Replay(events), id) == if mine == [] then None else Some(Fold(mine))
  {
    if events != [] {
      var front := events[..|events| - 1];
      var last := events[|events| - 1];
      StoreFoldsEachTask(front, id);
      if last.update.id == id {
        OwnEventFolds(Replay(front), EventsFor(front, id), last);
      }
    }
  }

  lemma FoldSnoc(events: seq<Event>, e: Event)
    ensures Fold(events + [e]) == MergeTask(if events == [] then None else Some(Fold(events)), e.update, e.at)
  {
    assert (events + [e])[..|events|] == events;
  }

  lemma HeededSnoc(events: seq<Event>, e: Event)
    ensures var earlier := Heeded(events);
            Heeded(events + [e]) ==
            if e.update.status == Some(Running) && LastGiven(earlier, GivenStatus) == Some(Cancelling) then earlier
            else earlier + [e]
  {
    assert (events + [e])[..|events|] == events;
  }

  /** One more event of a task: the store drops it exactly when it is not heeded. */
  lemma OwnEventFolds(tasks: TaskMap, mine: seq<Event>, e: Event)
    requires Lookup(tasks, e.update.id) == if Heeded(mine) == [] then None else Some(Fold(Heeded(mine)))
    ensures var after := Heeded(mine + [e]);
            after != [] && Lookup(AddOrUpdated(tasks, e.update, e.at), e.update.id) == Some(Fold(after))
  {
    var heeded := Heeded(mine);
    HeededSnoc(mine, e);
    FoldSnoc(heeded, e);
    var dropped := e.update.status == Some(Running) && LastGiven(heeded, GivenStatus) == Some(Cancelling);
    assert dropped <==> Dropped(tasks, e.update) by {
      if heeded != [] { FoldKeepsLife(heeded); }
    }
  }

  /** Without a cancelling event every event of the task is heeded. */
  lemma {:induction false} NothingDropped(events: seq<Event>)
    requires forall i :: 0 <= i < |events| ==> events[i].update.status != Some(Cancelling)
    ensures Heeded(events) == events
  {
    if events != [] {
      var front := events[..|events| - 1];
      NothingDropped(front);
      LastGivenMeans(front, GivenStatus);
    }
  }

  function PushAll(feed: seq<Item>, items: seq<Item>): seq<Item> {
    if items == [] then feed else Pushed(PushAll(feed, items[..|items| - 1]), items[|items| - 1])
  }

  /** However many notifications arrive, the feed holds the newest thirty, newest first. */
  lemma {:induction false} FeedHoldsNewest(items: seq<Item>, i: nat)
    ensures |PushAll([], items)| == Min(|items|, FEED_LIMIT)
    ensures i < |PushAll([], items)| ==> PushAll([], items)[i] == items[|items| - 1 - i]
  {
    if items != [] {
      FeedHoldsNewest(items[..|items| - 1], if i > 0 then i - 1 else 0);
    }
  }
}
