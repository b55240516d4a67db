/**
 * The toast store: a queue of at most three toasts, driven by two maps of timers.
 *
 * A timer is the time it is due.  The clock only advances up to the earliest due
 * timer, so timers fire on time, in any order among those due together.
 */
module Toasts {
  import opened Prelude

  const TOAST_LIMIT := 3
  const AUTO_DISMISS_MS := 6000
  const REMOVE_MS := 300
  const MAX_SAFE_INTEGER := 9007199254740991

  /** `createdAt` is bookkeeping; `content` stands for everything an update may replace. */
  datatype Toast = Toast(id: nat, open: bool, content: string, createdAt: nat)

  datatype Store = Store(
    now: nat,
    count: nat,
    toasts: seq<Toast>,
    removal: map<nat, nat>,
    autoDismiss: map<nat, nat>)

  const INITIAL_STORE := Store(0, 0, [], map[], map[])

  datatype Event =
    | Raise(content: string)
    | Update(id: nat, content: string, open: Option<bool>)
    | Dismiss(id: nat)
    | DismissAll
    | FireAutoDismiss(id: nat)
    | FireRemoval(id: nat)
    | Advance(ms: nat)

  function NextId(count: nat): nat {
    (count + 1) % MAX_SAFE_INTEGER
  }

  function TakeLimit(toasts: seq<Toast>): seq<Toast> {
    if |toasts| <= TOAST_LIMIT then toasts else toasts[..TOAST_LIMIT]
  }

  function Replaced(t: Toast, id: nat, content: string, open: Option<bool>): Toast {
    if t.id == id then t.(content := content, open := open.GetOr(t.open)) else t
  }

  function Updated(toasts: seq<Toast>, id: nat, content: string, open: Option<bool>): seq<Toast> {
    seq(|toasts|, i requires 0 <= i < |toasts| => Replaced(toasts[i], id, content, open))
  }

  /** Closing one toast, or every toast when no id is given. */
  function Closed(toasts: seq<Toast>, id: Option<nat>): seq<Toast> {
    seq(|toasts|, i requires 0 <= i < |toasts| =>
      if id == None || id == Some(toasts[i].id) then toasts[i].(open := false) else toasts[i])
  }

  function Without(toasts: seq<Toast>, id: nat): seq<Toast> {
    if toasts == [] then []
    else if toasts[0].id == id then Without(toasts[1..], id)
    else [toasts[0]] + Without(toasts[1..], id)
  }

  /** `addToRemoveQueue` for one id: a pending removal is never rescheduled. */
  function Queued(removal: map<nat, nat>, id: nat, now: nat): map<nat, nat> {
    if id in removal then removal else removal[id := now + REMOVE_MS]
  }

  function QueuedAll(removal: map<nat, nat>, toasts: seq<Toast>, now: nat): map<nat, nat>
    decreases |toasts|
  {
    if toasts == [] then removal
    else QueuedAll(Queued(removal, toasts[0].id, now), toasts[1..], now)
  }

  function OnRaise(s: Store, content: string): Store {
    var id := NextId(s.count);
    s.(count := id,
       toasts := TakeLimit([Toast(id, true, content, s.now)] + s.toasts),
       autoDismiss := if id in s.autoDismiss then s.autoDismiss else s.autoDismiss[id := s.now + AUTO_DISMISS_MS])
  }

  function OnDismiss(s: Store, id: nat): Store {
    s.(removal := Queued(s.removal, id, s.now), toasts := Closed(s.toasts, Some(id)))
  }

  function OnDismissAll(s: Store): Store {
    s.(removal := QueuedAll(s.removal, s.toasts, s.now), toasts := Closed(s.toasts, None))
  }

  predicate CanAdvance(s: Store, ms: nat) {
    && (forall id :: id in s.removal ==> s.now + ms <= s.removal[id])
    && (forall id :: id in s.autoDismiss ==> s.now + ms <= s.autoDismiss[id])
  }

  function Step(s: Store, e: Event): Store {
    match e
    case Raise(content) => OnRaise(s, content)
    case Update(id, content, open) => s.(toasts := Updated(s.toasts, id, content, open))
    case Dismiss(id) => OnDismiss(s, id)
    case DismissAll => OnDismissAll(s)
    case FireAutoDismiss(id) =>
      if id in s.autoDismiss && s.autoDismiss[id] <= s.now
      then OnDismiss(s.(autoDismiss := s.autoDismiss - {id}), id)
      else s
    case FireRemoval(id) =>
      if id in s.removal && s.removal[id] <= s.now
      then s.(removal := s.removal - {id}, toasts := Without(s.toasts, id))
      else s
    case Advance(ms) => if CanAdvance(s, ms) then s.(now := s.now + ms) else s
  }

  function Run(s: Store, events: seq<Event>): Store {
    if events == [] then s else Step(Run(s, events[..|events| - 1]), events[|events| - 1])
  }

  // ---- What every run keeps ----------------------------------------------------

  ghost predicate Timers(s: Store) {
    && (forall id :: id in s.removal ==> s.now <= s.removal[id] <= s.now + REMOVE_MS)
    && (forall id :: id in s.autoDismiss ==> s.now <= s.autoDismiss[id] <= s.now + AUTO_DISMISS_MS)
    && (forall id :: id in s.autoDismiss ==> id <= s.count)
  }

  /** Some pending timer guarantees that this toast leaves on time, whatever its open flag says. */
  ghost predicate Doomed(s: Store, t: Toast) {
    && t.id <= s.count && t.createdAt <= s.now
    && (t.id in s.autoDismiss ==> s.autoDismiss[t.id] == t.createdAt + AUTO_DISMISS_MS)
    && (t.id in s.removal ==> s.removal[t.id] <= t.createdAt + AUTO_DISMISS_MS + REMOVE_MS)
    && (t.id in s.autoDismiss || t.id in s.removal)
  }

  ghost predicate DistinctIds(toasts: seq<Toast>) {
    forall i, j :: 0 <= i < j < |toasts| ==> toasts[i].id != toasts[j].id
  }

  ghost predicate Inv(s: Store) {
    && Timers(s)
    && |s.toasts| <= TOAST_LIMIT
    && DistinctIds(s.toasts)
    && (forall t :: t in s.toasts ==> Doomed(s, t))
  }

  /** Open toasts await their auto-dismiss, closed ones their removal. */
  ghost predicate Staged(s: Store) {
    forall t :: t in s.toasts ==> if t.open then t.id in s.autoDismiss else t.id in s.removal
  }

  lemma {:induction false} WithoutHolds(toasts: seq<Toast>, id: nat)
    ensures |Without(toasts, id)| <= |toasts|
    ensures forall t :: t in Without(toasts, id) <==> t in toasts && t.id != id
  {
    if toasts != [] {
      WithoutHolds(toasts[1..], id);
      assert toasts == [toasts[0]] + toasts[1..];
    }
  }

  lemma DistinctCons(first: Toast, rest: seq<Toast>)
    requires DistinctIds(rest) && forall t :: t in rest ==> t.id != first.id
    ensures DistinctIds([first] + rest)
  {
    var all := [first] + rest;
    forall i, j | 0 <= i < j < |all| ensures all[i].id != all[j].id {
      assert all[j] == rest[j - 1] && rest[j - 1] in rest;
    }
  }

  lemma {:induction false} WithoutKeeps(toasts: seq<Toast>, id: nat)
    ensures |Without(toasts, id)| <= |toasts|
    ensures forall t :: t in Without(toasts, id) <==> t in toasts && t.id != id
    ensures DistinctIds(toasts) ==> DistinctIds(Without(toasts, id))
  {
    WithoutHolds(toasts, id);
    if toasts != [] && DistinctIds(toasts) {
      var rest := Without(toasts[1..], id);
      WithoutHolds(toasts[1..], id);
      WithoutKeeps(toasts[1..], id);
      forall t | t in rest ensures t.id != toasts[0].id {
        var j :| 0 <= j < |toasts| - 1 && toasts[1..][j] == t;
        assert toasts[j + 1] == t;
      }
      DistinctCons(toasts[0], rest);
    }
  }

  /** Removing keeps the other toasts in their order. */
  lemma {:induction false} WithoutConcat(xs: seq<Toast>, ys: seq<Toast>, t: Toast, id: nat)
    ensures Without([], id) == [] && Without([t], id) == if t.id == id then [] else [t]
    ensures Without(xs + ys, id) == Without(xs, id) + Without(ys, id)
  {
    assert [t][1..] == [];
    if xs == [] {
      assert xs + ys == ys;
    } else {
      WithoutConcat(xs[1..], ys, t, id);
      assert (xs + ys)[1..] == xs[1..] + ys;
    }
  }

  lemma {:induction false} QueuedAllSpec(removal: map<nat, nat>, toasts: seq<Toast>, now: nat)
    ensures forall id :: id in QueuedAll(removal, toasts, now)
                    <==> id in removal || exists t :: t in toasts && t.id == id
    ensures forall id :: id in QueuedAll(removal, toasts, now) ==>
              QueuedAll(removal, toasts, now)[id] == if id in removal then removal[id] else now + REMOVE_MS
    decreases |toasts|
  {
    if toasts != [] {
      var first := Queued(removal, toasts[0].id, now);
      QueuedAllSpec(first, toasts[1..], now);
      forall id
        ensures id in QueuedAll(removal, toasts, now) <==> id in removal || exists t :: t in toasts && t.id == id
      {
        if exists t :: t in toasts && t.id == id {
          var t :| t in toasts && t.id == id;
          assert t == toasts[0] || t in toasts[1..];
        }
      }
    }
  }

  lemma RaiseKeepsInv(s: Store, content: string)
    requires Inv(s) && s.count + 1 < MAX_SAFE_INTEGER
    ensures Inv(OnRaise(s, content))
    ensures Staged(s) ==> Staged(OnRaise(s, content))
  {
    var s' := OnRaise(s, content);
    var added := Toast(s'.count, true, content, s.now);
    forall t | t in s'.toasts ensures Doomed(s', t) && (t in s.toasts || t == added) {
      assert t in [added] + s.toasts;
      if t != added { assert Doomed(s, t); }
    }
    forall i, j | 0 <= i < j < |s'.toasts| ensures s'.toasts[i].id != s'.toasts[j].id {
      assert s'.toasts[j] == s.toasts[j - 1] && s.toasts[j - 1] in s.toasts;
    }
  }

  lemma RewriteKeepsInv(s: Store, s': Store)
    requires Inv(s)
    requires |s'.toasts| == |s.toasts|
    requires forall i :: 0 <= i < |s.toasts| ==>
               s'.toasts[i].id == s.toasts[i].id && s'.toasts[i].createdAt == s.toasts[i].createdAt
    requires Timers(s') && s'.count == s.count && s'.now == s.now
    requires forall id :: id in s'.autoDismiss ==> id in s.autoDismiss && s'.autoDismiss[id] == s.autoDismiss[id]
    requires forall id :: id in s.removal ==> id in s'.removal && s'.removal[id] == s.removal[id]
    requires forall id :: id in s'.removal && id !in s.removal ==> s'.removal[id] == s.now + REMOVE_MS
    requires forall id :: id in s.autoDismiss && id !in s'.autoDismiss ==> id in s'.removal
    ensures Inv(s')
  {
    forall t | t in s'.toasts ensures Doomed(s', t) {
      var i :| 0 <= i < |s'.toasts| && s'.toasts[i] == t;
      assert Doomed(s, s.toasts[i]);
    }
  }

  lemma DismissKeepsInv(s: Store, id: nat)
    requires Inv(s)
    ensures Inv(OnDismiss(s, id))
    ensures Staged(s) ==> Staged(OnDismiss(s, id))
  {
    var s' := OnDismiss(s, id);
    RewriteKeepsInv(s, s');
  }

  lemma DismissAllStages(s: Store)
    ensures forall t :: t in OnDismissAll(s).toasts ==> !t.open && t.id in OnDismissAll(s).removal
  {
    var s' := OnDismissAll(s);
    QueuedAllSpec(s.removal, s.toasts, s.now);
    forall t | t in s'.toasts ensures !t.open && t.id in s'.removal {
      var i :| 0 <= i < |s'.toasts| && s'.toasts[i] == t;
      assert s.toasts[i] in s.toasts && s.toasts[i].id == t.id;
    }
  }

  lemma DismissAllKeepsInv(s: Store)
    requires Inv(s)
    ensures Inv(OnDismissAll(s))
    ensures Staged(OnDismissAll(s))
  {
    QueuedAllSpec(s.removal, s.toasts, s.now);
    RewriteKeepsInv(s, OnDismissAll(s));
    DismissAllStages(s);
  }

  lemma AutoDismissKeepsInv(s: Store, id: nat)
    requires Inv(s) && id in s.autoDismiss && s.autoDismiss[id] <= s.now
    ensures var s' := OnDismiss(s.(autoDismiss := s.autoDismiss - {id}), id);
            Inv(s') && (Staged(s) ==> Staged(s'))
  {
    var s' := OnDismiss(s.(autoDismiss := s.autoDismiss - {id}), id);
    RewriteKeepsInv(s, s');
    if Staged(s) {
      forall t | t in s'.toasts ensures if t.open then t.id in s'.autoDismiss else t.id in s'.removal {
        var i :| 0 <= i < |s'.toasts| && s'.toasts[i] == t;
        assert s.toasts[i] in s.toasts && s.toasts[i].id == t.id;
      }
    }
  }

  lemma RemovalKeepsInv(s: Store, id: nat)
    requires Inv(s) && id in s.removal
    ensures var s' := s.(removal := s.removal - {id}, toasts := Without(s.toasts, id));
            Inv(s') && (Staged(s) ==> Staged(s'))
  {
    WithoutKeeps(s.toasts, id);
    var s' := s.(removal := s.removal - {id}, toasts := Without(s.toasts, id));
    forall t | t in s'.toasts ensures Doomed(s', t) {
      assert Doomed(s, t);
    }
  }

  lemma UpdateKeepsInv(s: Store, id: nat, content: string, open: Option<bool>)
    requires Inv(s)
    ensures Inv(s.(toasts := Updated(s.toasts, id, content, open)))
  {
    RewriteKeepsInv(s, s.(toasts := Updated(s.toasts, id, content, open)));
  }

  /**
   * An update that sets a shown toast's flag against its timers: it opens one
   * whose auto-dismiss has fired, or closes one whose removal is not queued.
   */
  ghost predicate Breaks(s: Store, e: Event) {
    && e.Update? && e.open.Some?
    && (exists t :: t in s.toasts && t.id == e.id)
    && if e.open.value then e.id !in s.autoDismiss else e.id !in s.removal
  }

  lemma UpdateStages(s: Store, id: nat, content: string, open: Option<bool>)
    requires Staged(s)
    ensures Staged(s.(toasts := Updated(s.toasts, id, content, open))) <==> !Breaks(s, Update(id, content, open))
  {
    var s' := s.(toasts := Updated(s.toasts, id, content, open));
    if Breaks(s, Update(id, content, open)) {
      var t :| t in s.toasts && t.id == id;
      var i :| 0 <= i < |s.toasts| && s.toasts[i] == t;
      assert s'.toasts[i] in s'.toasts && s'.toasts[i].id == id && s'.toasts[i].open == open.value;
    } else {
      forall t | t in s'.toasts ensures if t.open then t.id in s'.autoDismiss else t.id in s'.removal {
        var i :| 0 <= i < |s'.toasts| && s'.toasts[i] == t;
        assert s.toasts[i] in s.toasts && s.toasts[i].id == t.id;
      }
    }
  }

  /** Every event keeps the invariant, and keeps the flags in step exactly when it is not such an update. */
  lemma StepKeepsInv(s: Store, e: Event)
    requires Inv(s) && s.count + 1 < MAX_SAFE_INTEGER
    ensures Inv(Step(s, e))
    ensures Staged(s) ==> (Staged(Step(s, e)) <==> !Breaks(s, e))
    ensures Step(s, e).count <= s.count + 1
  {
    match e {
      case Raise(content) => RaiseKeepsInv(s, content);
      case Update(id, content, open) =>
        UpdateKeepsInv(s, id, content, open);
        if Staged(s) { UpdateStages(s, id, content, open); }
      case Dismiss(id) => DismissKeepsInv(s, id);
      case DismissAll => DismissAllKeepsInv(s);
      case FireAutoDismiss(id) =>
        if id in s.autoDismiss && s.autoDismiss[id] <= s.now { AutoDismissKeepsInv(s, id); }
      case FireRemoval(id) =>
        if id in s.removal && s.removal[id] <= s.now { RemovalKeepsInv(s, id); }
      case Advance(ms) => AdvanceKeepsInv(s, ms);
    }
  }

  lemma AdvanceKeepsInv(s: Store, ms: nat)
    requires Inv(s)
    ensures Inv(Step(s, Advance(ms)))
  {
    if CanAdvance(s, ms) {
      var s' := s.(now := s.now + ms);
      forall t | t in s'.toasts ensures Doomed(s', t) {
        assert Doomed(s, t);
      }
    }
  }

  lemma {:induction false} RunKeepsInv(events: seq<Event>)
    requires |events| < MAX_SAFE_INTEGER - 1
    ensures var s := Run(INITIAL_STORE, events);
            Inv(s) && s.count <= |events|
  {
    if events != [] {
      RunKeepsInv(events[..|events| - 1]);
      StepKeepsInv(Run(INITIAL_STORE, events[..|events| - 1]), events[|events| - 1]);
    }
  }

  ghost predicate NeverBreaks(events: seq<Event>) {
    forall k :: 0 <= k < |events| ==> !Breaks(Run(INITIAL_STORE, events[..k]), events[k])
  }

  lemma OneMoreStep(events: seq<Event>, k: nat)
    requires k < |events| && |events| < MAX_SAFE_INTEGER - 1
    ensures var s, s' := Run(INITIAL_STORE, events[..k]), Run(INITIAL_STORE, events[..k + 1]);
            Staged(s) ==> (Staged(s') <==> !Breaks(s, events[k]))
  {
    assert events[..k + 1][..k] == events[..k];
    RunKeepsInv(events[..k]);
    StepKeepsInv(Run(INITIAL_STORE, events[..k]), events[k]);
  }

  lemma {:induction false} StagedUpTo(events: seq<Event>, n: nat)
    requires n <= |events| < MAX_SAFE_INTEGER - 1 && NeverBreaks(events)
    ensures Staged(Run(INITIAL_STORE, events[..n]))
  {
    if n > 0 {
      StagedUpTo(events, n - 1);
      OneMoreStep(events, n - 1);
    }
  }

  // ---- The store as the module's variables ------------------------------------

  class ToastStore {
    var count: nat
    var memoryState: seq<Toast>
    var toastTimeouts: map<nat, nat>
    var autoDismissTimeouts: map<nat, nat>

    ghost function Contents(now: nat): Store
      reads this
    {
      Store(now, count, memoryState, toastTimeouts, autoDismissTimeouts)
    }

    /** What every run keeps, as the class's own invariant. */
    ghost predicate Valid(now: nat)
      reads this
    {
      Inv(Contents(now))
    }

    constructor ()
      ensures Contents(0) == INITIAL_STORE && Valid(0)
    {
      count, memoryState := 0, [];
      toastTimeouts, autoDismissTimeouts := map[], map[];
    }

    method GenId() returns (id: nat)
      modifies this`count
      ensures id == count == NextId(old(count))
    {
      count := (count + 1) % MAX_SAFE_INTEGER;
      id := count;
    }

    method AddToRemoveQueue(id: nat, now: nat)
      modifies this`toastTimeouts
      ensures toastTimeouts == Queued(old(toastTimeouts), id, now)
      ensures toastTimeouts == if id in old(toastTimeouts) then old(toastTimeouts)
                               else old(toastTimeouts)[id := now + 300]
    {
      if id in toastTimeouts {
        return;
      }
      toastTimeouts := toastTimeouts[id := now + REMOVE_MS];
    }

    method ScheduleAutoDismiss(id: nat, now: nat)
      modifies this`autoDismissTimeouts
      ensures autoDismissTimeouts ==
              if id in old(autoDismissTimeouts) then old(autoDismissTimeouts)
              else old(autoDismissTimeouts)[id := now + AUTO_DISMISS_MS]
    {
      if id !in autoDismissTimeouts {
        autoDismissTimeouts := autoDismissTimeouts[id := now + AUTO_DISMISS_MS];
      }
    }

    method RaiseToast(content: string, now: nat) returns (id: nat)
      modifies this
      ensures Contents(now) == Step(old(Contents(now)), Raise(content)) && id == NextId(old(count))
      ensures old(count) < 9007199254740990 ==> id == old(count) + 1
      ensures |memoryState| == Min(|old(memoryState)| + 1, 3) && memoryState[0] == Toast(id, true, content, now)
      ensures forall i :: 0 < i < |memoryState| ==> memoryState[i] == old(memoryState)[i - 1]
      ensures toastTimeouts == old(toastTimeouts)
      ensures autoDismissTimeouts == if id in old(autoDismissTimeouts) then old(autoDismissTimeouts)
                                     else old(autoDismissTimeouts)[id := now + 6000]
      ensures old(Valid(now)) && id > old(count) ==>
                && Valid(now) && memoryState[0] == Toast(id, true, content, now)
                && autoDismissTimeouts[id] == now + AUTO_DISMISS_MS
    {
      if NextId(count) > count && Valid(now) {
        RaiseKeepsInv(Contents(now), content);
      }
      id := GenId();
      memoryState := TakeLimit([Toast(id, true, content, now)] + memoryState);
      ScheduleAutoDismiss(id, now);
    }

    /** Rewrites the named toast where it stands: order, ids, ages and every other toast stay. */
    method UpdateToast(id: nat, content: string, open: Option<bool>, ghost now: nat)
      modifies this`memoryState
      ensures |memoryState| == |old(memoryState)|
      ensures forall i :: 0 <= i < |memoryState| ==>
                && memoryState[i].id == old(memoryState)[i].id
                && memoryState[i].createdAt == old(memoryState)[i].createdAt
                && (memoryState[i].id != id ==> memoryState[i] == old(memoryState)[i])
                && (memoryState[i].id == id ==>
                      && memoryState[i].content == content
                      && memoryState[i].open == open.GetOr(old(memoryState)[i].open))
      ensures Contents(now) == Step(old(Contents(now)), Update(id, content, open))
      ensures old(Valid(now)) ==> Valid(now)
    {
      if Valid(now) {
        UpdateKeepsInv(Contents(now), id, content, open);
      }
      memoryState := Updated(memoryState, id, content, open);
    }

    method DismissOne(id: nat, now: nat)
      modifies this`toastTimeouts, this`memoryState
      ensures Contents(now) == Step(old(Contents(now)), Dismiss(id))
      ensures toastTimeouts == if id in old(toastTimeouts) then old(toastTimeouts)
                               else old(toastTimeouts)[id := now + 300]
      ensures |memoryState| == |old(memoryState)|
      ensures forall i :: 0 <= i < |memoryState| ==>
                memoryState[i] == if old(memoryState)[i].id == id then old(memoryState)[i].(open := false)
                                  else old(memoryState)[i]
      ensures old(Valid(now)) ==> Valid(now)
    {
      if Valid(now) {
        DismissKeepsInv(Contents(now), id);
      }
      AddToRemoveQueue(id, now);
      memoryState := Closed(memoryState, Some(id));
    }

    method QueueEvery(now: nat)
      modifies this`toastTimeouts
      ensures toastTimeouts == QueuedAll(old(toastTimeouts), memoryState, now)
    {
      var i := 0;
      while i < |memoryState|
        invariant 0 <= i <= |memoryState|
        invariant QueuedAll(toastTimeouts, memoryState[i..], now) == QueuedAll(old(toastTimeouts), memoryState, now)
      {
        AddToRemoveQueue(memoryState[i].id, now);
        assert memoryState[i..][1..] == memoryState[i + 1..];
        i := i + 1;
      }
    }

    method DismissEvery(now: nat)
      modifies this`toastTimeouts, this`memoryState
      ensures Contents(now) == Step(old(Contents(now)), DismissAll)
      ensures |memoryState| == |old(memoryState)|
      ensures forall i :: 0 <= i < |memoryState| ==> memoryState[i] == old(memoryState)[i].(open := false)
      ensures forall t :: t in memoryState ==> !t.open && t.id in toastTimeouts
      ensures forall id :: id in toastTimeouts <==>
                id in old(toastTimeouts) || exists t :: t in old(memoryState) && t.id == id
      ensures forall id :: id in toastTimeouts ==>
                toastTimeouts[id] == if id in old(toastTimeouts) then old(toastTimeouts)[id] else now + 300
      ensures old(Valid(now)) ==> Valid(now)
    {
      DismissAllStages(Contents(now));
      QueuedAllSpec(toastTimeouts, memoryState, now);
      if Valid(now) {
        DismissAllKeepsInv(Contents(now));
      }
      QueueEvery(now);
      memoryState := Closed(memoryState, None);
    }

    /** The auto-dismiss timer's callback. */
    method AutoDismissFires(id: nat, now: nat)
      requires id in autoDismissTimeouts && autoDismissTimeouts[id] <= now
      modifies this
      ensures Contents(now) == Step(old(Contents(now)), FireAutoDismiss(id))
      ensures autoDismissTimeouts == old(autoDismissTimeouts) - {id} && id in toastTimeouts
      ensures old(Valid(now)) ==> Valid(now)
    {
      if Valid(now) {
        AutoDismissKeepsInv(Contents(now), id);
      }
      autoDismissTimeouts := autoDismissTimeouts - {id};
      DismissOne(id, now);
    }

    /** The removal timer's callback. */
    method RemovalFires(id: nat, now: nat)
      requires id in toastTimeouts && toastTimeouts[id] <= now
      modifies this
      ensures Contents(now) == Step(old(Contents(now)), FireRemoval(id))
      ensures toastTimeouts == old(toastTimeouts) - {id} && autoDismissTimeouts == old(autoDismissTimeouts)
      ensures forall t :: t in memoryState <==> t in old(memoryState) && t.id != id
      ensures old(Valid(now)) ==> Valid(now)
    {
      WithoutKeeps(memoryState, id);
      if Valid(now) {
        RemovalKeepsInv(Contents(now), id);
      }
      toastTimeouts := toastTimeouts - {id};
      memoryState := Without(memoryState, id);
    }
  }
  // ---- Main results --------------------------------------------------------------

  /**
   * After any run, at most three toasts are shown, under distinct ids, and none
   * is older than 6300 ms, even if updates rewrite the open flag.
   */
  lemma EveryToastLeavesOnTime(events: seq<Event>)
    requires |events| < MAX_SAFE_INTEGER - 1
    ensures var s := Run(INITIAL_STORE, events);
            && |s.toasts| <= TOAST_LIMIT
            && DistinctIds(s.toasts)
            && (forall t :: t in s.toasts ==> s.now <= t.createdAt + AUTO_DISMISS_MS + REMOVE_MS)
  {
    RunKeepsInv(events);
    var s := Run(INITIAL_STORE, events);
    forall t | t in s.toasts ensures s.now <= t.createdAt + AUTO_DISMISS_MS + REMOVE_MS {
      assert Doomed(s, t);
    }
  }

  /**
   * All through a run, open toasts await their auto-dismiss and closed ones their
   * removal, exactly when no update sets a flag against the toast's timers.
   */
  lemma {:induction false} StagedExactlyWhenNeverBroken(events: seq<Event>)
    requires |events| < MAX_SAFE_INTEGER - 1
    ensures (forall n :: 0 <= n <= |events| ==> Staged(Run(INITIAL_STORE, events[..n]))) <==> NeverBreaks(events)
  {
    if NeverBreaks(events) {
      forall n | 0 <= n <= |events| ensures Staged(Run(INITIAL_STORE, events[..n])) {
        StagedUpTo(events, n);
      }
    } else {
      var k :| 0 <= k < |events| && Breaks(Run(INITIAL_STORE, events[..k]), events[k]);
      OneMoreStep(events, k);
      assert !(Staged(Run(INITIAL_STORE, events[..k])) && Staged(Run(INITIAL_STORE, events[..k + 1])));
    }
  }

  /**
   * Then each open toast has a pending auto-dismiss due 6000 ms after its creation
   * and each closed toast a pending removal due within 6300 ms of it.
   */
  lemma {:induction false} OpenAwaitsDismissClosedAwaitsRemoval(events: seq<Event>, t: Toast)
    requires |events| < MAX_SAFE_INTEGER - 1 && NeverBreaks(events)
    requires t in Run(INITIAL_STORE, events).toasts
    ensures var s := Run(INITIAL_STORE, events);
            if t.open
            then t.id in s.autoDismiss && s.autoDismiss[t.id] == t.createdAt + AUTO_DISMISS_MS
            else t.id in s.removal && s.removal[t.id] <= t.createdAt + AUTO_DISMISS_MS + REMOVE_MS
  {
    RunKeepsInv(events);
    StagedUpTo(events, |events|);
    assert events[..|events|] == events;
    assert Doomed(Run(INITIAL_STORE, events), t);
  }

  /** Such updates exist: closing the first toast by update queues no removal for it. */
  lemma UpdateCanCloseWithoutRemoval()
    ensures var s := Step(Step(INITIAL_STORE, Raise("a")), Update(1, "b", Some(false)));
            |s.toasts| == 1 && !s.toasts[0].open && s.removal == map[]
  {
  }

  /**
   * Until it fires, a pending removal keeps its time: no dismissal, single or of
   * everything, and no other event postpones it.
   */
  lemma {:induction false} RemovalIsNeverPostponed(s: Store, events: seq<Event>, id: nat)
    requires id in s.removal
    requires FireRemoval(id) !in events
    ensures var s' := Run(s, events); id in s'.removal && s'.removal[id] == s.removal[id]
  {
    if events != [] {
      var front := events[..|events| - 1];
      RemovalIsNeverPostponed(s, front, id);
      var m := Run(s, front);
      QueuedAllSpec(m.removal, m.toasts, m.now);
    }
  }

  ghost function DueDismissals(s: Store): set<nat> {
    set id | id in s.autoDismiss && s.autoDismiss[id] <= s.now
  }

  ghost function DueRemovals(s: Store): set<nat> {
    set id | id in s.removal && s.removal[id] <= s.now
  }

  lemma FiringDismissal(s: Store, id: nat)
    requires id in DueDismissals(s)
    ensures var s' := Step(s, FireAutoDismiss(id));
            DueDismissals(s') == DueDismissals(s) - {id} && DueRemovals(s') == DueRemovals(s)
  {
  }

  lemma FiringRemoval(s: Store, id: nat)
    requires id in DueRemovals(s)
    ensures var s' := Step(s, FireRemoval(id));
            DueRemovals(s') == DueRemovals(s) - {id} && DueDismissals(s') == DueDismissals(s)
  {
  }

  /** The timers that still have to fire before the clock may move on. */
  ghost function DueNow(s: Store): nat {
    |DueDismissals(s)| + |DueRemovals(s)|
  }

  /**
   * The clock is never stuck: firing everything that is due, which is finitely
   * much, reaches a state in which it can advance.
   */
  lemma {:induction false} ClockProgresses(s: Store) returns (fired: seq<Event>)
    ensures |fired| == DueNow(s)
    ensures Run(s, fired).now == s.now && CanAdvance(Run(s, fired), 1)
    decreases DueNow(s)
  {
    if id :| id in DueDismissals(s) {
      FiringDismissal(s, id);
      var rest := ClockProgresses(Step(s, FireAutoDismiss(id)));
      fired := [FireAutoDismiss(id)] + rest;
      RunFrom(s, FireAutoDismiss(id), rest);
    } else if id :| id in DueRemovals(s) {
      FiringRemoval(s, id);
      var rest := ClockProgresses(Step(s, FireRemoval(id)));
      fired := [FireRemoval(id)] + rest;
      RunFrom(s, FireRemoval(id), rest);
    } else {
      fired := [];
      assert forall id :: id in s.autoDismiss ==> id !in DueDismissals(s);
      assert forall id :: id in s.removal ==> id !in DueRemovals(s);
    }
  }

  lemma {:induction false} RunFrom(s: Store, e: Event, rest: seq<Event>)
    ensures Run(s, [e] + rest) == Run(Step(s, e), rest)
  {
    if rest != [] {
      var front := rest[..|rest| - 1];
      assert ([e] + rest)[..|rest|] == [e] + front;
      RunFrom(s, e, front);
    } else {
      assert ([e] + rest)[..0] == [];
    }
  }
}
