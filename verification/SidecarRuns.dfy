/**
 * Every interleaving of requests, detached start tasks, permit traffic, slot
 * changes, shutdowns, crashes and the clock, as runs of one transition function.
 * An event that is not possible in a state leaves it unchanged, so results
 * quantify over all event sequences.
 */
module SidecarRuns {
  import opened Prelude
  import opened SlotSizing
  import opened Sidecar

  /** A detached start task; `port` is set once it has spawned its process. */
  datatype Task = Task(model: string, slots: nat, port: Option<nat>)

  /** The permits of one server generation. */
  datatype Pool = Pool(permits: nat, held: nat)

  /** A completion call that was answered with generation `pool`. */
  datatype Caller = Waiting(pool: nat) | Completing(pool: nat)

  /** What the cooldown is about: when starts were spawned and when they failed. */
  datatype Mark = Spawned(at: nat) | StartFailure(at: nat)

  /**
   * A process is named by the task that spawned it.  `stored` lists the slot
   * counts stored so far, the newest last; `orphans` counts the shutdowns that
   * came while a start was under way, which they do not stop.
   */
  datatype World = World(
    server: View,
    stored: seq<nat>,
    now: nat,
    pools: seq<Pool>,
    tasks: map<nat, Task>,
    alive: set<nat>,
    nextTask: nat,
    callers: map<nat, Caller>,
    history: seq<Mark>,
    shutdowns: nat,
    orphans: nat)

  const INITIAL_WORLD := World(INITIAL_VIEW, [1], 0, [Pool(1, 0)], map[], {}, 0, map[], [], 0, 0)

  /**
   * A request reads the slot count before it takes the lock, so it may act on any
   * count stored by then: `seen` is the one it read.
   */
  datatype Event =
    | Request(caller: nat, model: string, seen: nat)
    | Launch(task: nat, port: nat)
    | Succeed(task: nat, soloMs: nat, burstMs: nat)
    | Fail(task: nat, reason: string)
    | Shutdown
    | SetSlots(n: nat)
    | Acquire(caller: nat)
    | Leave(caller: nat)
    | Crash(pid: nat)
    | Tick(ms: nat)

  function Kill(alive: set<nat>, child: Option<Child>): set<nat> {
    if child.Some? then alive - {child.value.pid} else alive
  }

  predicate CanRequest(w: World, caller: nat, seen: nat) {
    caller !in w.callers && seen < |w.stored|
  }

  function OnRequest(w: World, caller: nat, model: string, slots: nat): World {
    var (server, answer, killed) := Ensure(w.server, model, slots, w.now);
    if answer.Serving? then
      w.(callers := w.callers[caller := Waiting(answer.semaphore)])
    else if answer.Spawns() then
      w.(server := server,
         alive := Kill(w.alive, killed),
         tasks := w.tasks[w.nextTask := Task(model, slots, None)],
         nextTask := w.nextTask + 1,
         history := w.history + [Spawned(w.now)])
    else
      w
  }

  function OnSucceed(w: World, id: nat, soloMs: nat, burstMs: nat): World
    requires id in w.tasks && w.tasks[id].port.Some?
  {
    var task := w.tasks[id];
    var server := Install(w.server, Child(id, task.port.value), task.model, task.slots, soloMs, burstMs);
    w.(server := server,
       alive := Kill(w.alive, w.server.child),
       tasks := w.tasks - {id},
       pools := w.pools + [Pool(server.effectiveSlots, 0)])
  }

  function OnFail(w: World, id: nat, reason: string): World {
    w.(server := RecordFailure(w.server, reason, w.now),
       alive := w.alive - {id},
       tasks := w.tasks - {id},
       history := w.history + [StartFailure(w.now)])
  }

  function OnShutdown(w: World): World {
    w.(server := StopServer(w.server),
       alive := Kill(w.alive, w.server.child),
       shutdowns := w.shutdowns + 1,
       orphans := if w.server.state.Starting? then w.orphans + 1 else w.orphans)
  }

  function SetHeld(pools: seq<Pool>, g: nat, held: nat): seq<Pool>
    requires g < |pools|
  {
    pools[g := pools[g].(held := held)]
  }

  predicate CanAcquire(w: World, caller: nat) {
    && caller in w.callers
    && w.callers[caller].Waiting?
    && w.callers[caller].pool < |w.pools|
    && w.pools[w.callers[caller].pool].held < w.pools[w.callers[caller].pool].permits
  }

  function OnAcquire(w: World, caller: nat): World
    requires CanAcquire(w, caller)
  {
    var g := w.callers[caller].pool;
    w.(callers := w.callers[caller := Completing(g)], pools := SetHeld(w.pools, g, w.pools[g].held + 1))
  }

  /** A completion ends, or a queued call is abandoned. */
  function OnLeave(w: World, caller: nat): World
    requires caller in w.callers
  {
    var c := w.callers[caller];
    w.(callers := w.callers - {caller},
       pools := if c.Completing? && c.pool < |w.pools| && w.pools[c.pool].held > 0
                then SetHeld(w.pools, c.pool, w.pools[c.pool].held - 1) else w.pools)
  }

  function Step(w: World, e: Event): World {
    match e
    case Request(caller, model, seen) =>
      if CanRequest(w, caller, seen) then OnRequest(w, caller, model, w.stored[seen]) else w
    case Launch(id, port) =>
      if id in w.tasks && w.tasks[id].port.None?
      then w.(tasks := w.tasks[id := w.tasks[id].(port := Some(port))], alive := w.alive + {id})
      else w
    case Succeed(id, soloMs, burstMs) =>
      if id in w.tasks && w.tasks[id].port.Some? then OnSucceed(w, id, soloMs, burstMs) else w
    case Fail(id, reason) => if id in w.tasks then OnFail(w, id, reason) else w
    case Shutdown => OnShutdown(w)
    case SetSlots(n) => w.(stored := w.stored + [StoredSlots(n)])
    case Acquire(caller) => if CanAcquire(w, caller) then OnAcquire(w, caller) else w
    case Leave(caller) => if caller in w.callers then OnLeave(w, caller) else w
    case Crash(pid) => w.(alive := w.alive - {pid})
    case Tick(ms) => w.(now := w.now + ms)
  }

  function Run(w: World, events: seq<Event>): World
    decreases |events|
  {
    if events == [] then w else Step(Run(w, events[..|events| - 1]), events[|events| - 1])
  }

  ghost predicate NoShutdown(events: seq<Event>) {
    Shutdown !in events
  }

  // ---- What every run keeps -------------------------------------------------

  function ChildCount(w: World): nat {
    if w.server.child.Some? then 1 else 0
  }

  /** Idle: neither serving nor starting. */
  predicate Idle(w: World) {
    w.server.state.NotStarted? || w.server.state.Failed?
  }

  ghost predicate Processes(w: World) {
    && (forall id :: id in w.tasks ==> id < w.nextTask)
    && (forall p :: p in w.alive ==> p in w.tasks || (w.server.child.Some? && w.server.child.value.pid == p))
    && (w.server.child.Some? ==> w.server.child.value.pid !in w.tasks && w.server.child.value.pid < w.nextTask)
    && |w.tasks| + ChildCount(w) + (if Idle(w) then 1 else 0) <= 1 + w.orphans
    && w.orphans <= w.shutdowns
  }

  ghost predicate Slots(w: World) {
    && (forall k :: 0 <= k < |w.stored| ==> 1 <= w.stored[k] <= MAX_SLOTS)
    && (forall id :: id in w.tasks ==> 1 <= w.tasks[id].slots <= MAX_SLOTS)
    && |w.pools| == w.server.semaphore + 1
    && Consistent(w.server)
    && (w.server.state.Ready? ==> w.pools[w.server.semaphore].permits == w.server.effectiveSlots)
  }

  /** While no start was orphaned the three phases exclude one another completely. */
  ghost predicate Phases(w: World) {
    w.orphans == 0 ==>
      && (w.server.state.Starting? ==> |w.tasks| == 1 && w.server.child.None?)
      && (!w.server.state.Starting? ==> w.tasks == map[])
      && (Idle(w) ==> w.server.child.None?)
  }

  ghost predicate Lifecycle(w: World) {
    Processes(w) && Phases(w)
  }

  /** Without a shutdown a failure is either 60 s old or still what the state reports. */
  ghost predicate Cooldown(w: World) {
    && (w.server.state.Failed? ==> w.server.state.at <= w.now)
    && (w.shutdowns == 0 ==>
      && (forall i :: 0 <= i < |w.history| && w.history[i].StartFailure? ==>
            || w.history[i].at + FAILURE_COOLDOWN_MS <= w.now
            || (w.server.state.Failed? && w.history[i].at <= w.server.state.at))
      && (forall i, j :: 0 <= i < j < |w.history| && w.history[i].StartFailure? && w.history[j].Spawned? ==>
            w.history[i].at + FAILURE_COOLDOWN_MS <= w.history[j].at))
  }

  /** The completions in flight on one server generation. */
  ghost function InFlight(w: World, g: nat): set<nat> {
    set c | c in w.callers && w.callers[c] == Completing(g)
  }

  ghost predicate Permits(w: World) {
    && (forall c :: c in w.callers ==> w.callers[c].pool < |w.pools|)
    && (forall g :: 0 <= g < |w.pools| ==> |InFlight(w, g)| == w.pools[g].held <= w.pools[g].permits)
  }

  ghost predicate Inv(w: World) {
    Lifecycle(w) && Slots(w) && Cooldown(w) && Permits(w)
  }

  lemma RemoveTask(tasks: map<nat, Task>, id: nat)
    requires id in tasks
    ensures |tasks - {id}| == |tasks| - 1
    ensures |tasks| == 1 ==> tasks - {id} == map[]
  {
    assert (tasks - {id}).Keys == tasks.Keys - {id};
    if |tasks| == 1 {
      assert |tasks.Keys - {id}| == 0;
    }
  }

  lemma AddTask(tasks: map<nat, Task>, id: nat, task: Task)
    requires id !in tasks
    ensures |tasks[id := task]| == |tasks| + 1
  {
    assert tasks[id := task].Keys == tasks.Keys + {id};
  }

  lemma KeepTasks(tasks: map<nat, Task>, id: nat, task: Task)
    requires id in tasks
    ensures |tasks[id := task]| == |tasks|
  {
    assert tasks[id := task].Keys == tasks.Keys;
  }

  lemma RequestKeepsLifecycle(w: World, caller: nat, model: string, slots: nat)
    requires Lifecycle(w) && Slots(w)
    ensures Lifecycle(OnRequest(w, caller, model, slots))
  {
    AddTask(w.tasks, w.nextTask, Task(model, slots, None));
  }

  lemma LaunchKeepsLifecycle(w: World, id: nat, port: nat)
    requires Lifecycle(w)
    ensures Lifecycle(Step(w, Launch(id, port)))
  {
    if id in w.tasks { KeepTasks(w.tasks, id, w.tasks[id].(port := Some(port))); }
  }

  lemma SucceedKeepsLifecycle(w: World, id: nat, soloMs: nat, burstMs: nat)
    requires Lifecycle(w)
    requires id in w.tasks && w.tasks[id].port.Some?
    ensures Lifecycle(OnSucceed(w, id, soloMs, burstMs))
  {
    RemoveTask(w.tasks, id);
  }

  lemma FailKeepsLifecycle(w: World, id: nat, reason: string)
    requires Lifecycle(w)
    requires id in w.tasks
    ensures Lifecycle(OnFail(w, id, reason))
  {
    RemoveTask(w.tasks, id);
  }

  lemma ShutdownKeepsLifecycle(w: World)
    requires Lifecycle(w) && Slots(w)
    ensures Lifecycle(OnShutdown(w))
  {
  }

  /** Steps that only touch permits, slots or the clock, or that lose a process. */
  lemma QuietKeepsLifecycle(w: World, w': World)
    requires Lifecycle(w)
    requires w'.server == w.server && w'.tasks == w.tasks && w'.nextTask == w.nextTask
    requires w'.shutdowns == w.shutdowns && w'.orphans == w.orphans && w'.alive <= w.alive
    ensures Lifecycle(w')
  {
  }

  lemma {:induction false} StepKeepsLifecycle(w: World, e: Event)
    requires Lifecycle(w) && Slots(w)
    ensures Lifecycle(Step(w, e))
  {
    match e {
      case Request(caller, model, seen) =>
        if CanRequest(w, caller, seen) { RequestKeepsLifecycle(w, caller, model, w.stored[seen]); }
      case Launch(id, port) => LaunchKeepsLifecycle(w, id, port);
      case Succeed(id, soloMs, burstMs) =>
        if id in w.tasks && w.tasks[id].port.Some? { SucceedKeepsLifecycle(w, id, soloMs, burstMs); }
      case Fail(id, reason) => if id in w.tasks { FailKeepsLifecycle(w, id, reason); }
      case Shutdown => ShutdownKeepsLifecycle(w);
      case Acquire(caller) =>
        if CanAcquire(w, caller) { QuietKeepsLifecycle(w, OnAcquire(w, caller)); }
      case Leave(caller) =>
        if caller in w.callers { QuietKeepsLifecycle(w, OnLeave(w, caller)); }
      case _ => QuietKeepsLifecycle(w, Step(w, e));
    }
  }

  lemma SucceedKeepsSlots(w: World, id: nat, soloMs: nat, burstMs: nat)
    requires Slots(w) && id in w.tasks && w.tasks[id].port.Some?
    ensures Slots(OnSucceed(w, id, soloMs, burstMs))
  {
    CalibrationIsLargestFit(1, w.tasks[id].slots, soloMs, burstMs);
  }

  lemma RequestKeepsSlots(w: World, caller: nat, model: string, slots: nat)
    requires Slots(w) && 1 <= slots <= MAX_SLOTS
    ensures Slots(OnRequest(w, caller, model, slots))
  {
  }

  /** Steps that only touch permits, processes or the clock. */
  lemma PermitsKeepSlots(w: World, w': World)
    requires Slots(w) && w'.server == w.server && w'.tasks == w.tasks && w'.stored == w.stored
    requires |w'.pools| == |w.pools|
    requires forall g :: 0 <= g < |w.pools| ==> w'.pools[g].permits == w.pools[g].permits
    ensures Slots(w')
  {
  }

  lemma StepKeepsSlots(w: World, e: Event)
    requires Slots(w)
    ensures Slots(Step(w, e))
  {
    match e {
      case Request(caller, model, seen) =>
        if CanRequest(w, caller, seen) { RequestKeepsSlots(w, caller, model, w.stored[seen]); }
      case Succeed(id, soloMs, burstMs) =>
        if id in w.tasks && w.tasks[id].port.Some? { SucceedKeepsSlots(w, id, soloMs, burstMs); }
      case Acquire(_) => PermitsKeepSlots(w, Step(w, e));
      case Leave(_) => PermitsKeepSlots(w, Step(w, e));
      case _ =>
    }
  }

  lemma RequestKeepsCooldown(w: World, caller: nat, model: string, slots: nat)
    requires Cooldown(w)
    ensures Cooldown(OnRequest(w, caller, model, slots))
  {
  }

  lemma FailKeepsCooldown(w: World, id: nat, reason: string)
    requires Cooldown(w)
    ensures Cooldown(OnFail(w, id, reason))
  {
  }

  /** Without a shutdown, a start can only succeed while the state is Starting. */
  lemma SucceedKeepsCooldown(w: World, id: nat, soloMs: nat, burstMs: nat)
    requires Cooldown(w) && Lifecycle(w)
    requires id in w.tasks && w.tasks[id].port.Some?
    ensures Cooldown(OnSucceed(w, id, soloMs, burstMs))
  {
  }

  /** Steps that leave the server and the record of starts alone; time may pass. */
  lemma QuietKeepsCooldown(w: World, w': World)
    requires Cooldown(w)
    requires w'.server == w.server && w'.history == w.history && w'.shutdowns == w.shutdowns && w.now <= w'.now
    ensures Cooldown(w')
  {
  }

  lemma StepKeepsCooldown(w: World, e: Event)
    requires Lifecycle(w) && Cooldown(w)
    ensures Cooldown(Step(w, e))
  {
    match e {
      case Request(caller, model, seen) =>
        if CanRequest(w, caller, seen) { RequestKeepsCooldown(w, caller, model, w.stored[seen]); }
      case Succeed(id, soloMs, burstMs) =>
        if id in w.tasks && w.tasks[id].port.Some? { SucceedKeepsCooldown(w, id, soloMs, burstMs); }
      case Fail(id, reason) => if id in w.tasks { FailKeepsCooldown(w, id, reason); }
      case Shutdown =>
      case _ => QuietKeepsCooldown(w, Step(w, e));
    }
  }

  lemma AcquireKeepsPermits(w: World, caller: nat)
    requires Permits(w) && CanAcquire(w, caller)
    ensures Permits(OnAcquire(w, caller))
  {
    var w' := OnAcquire(w, caller);
    forall g | 0 <= g < |w'.pools|
      ensures |InFlight(w', g)| == w'.pools[g].held <= w'.pools[g].permits
    {
      assert |InFlight(w, g)| == w.pools[g].held;
      assert InFlight(w', g) == if g == w.callers[caller].pool then InFlight(w, g) + {caller} else InFlight(w, g);
    }
  }

  lemma LeaveKeepsPermits(w: World, caller: nat)
    requires Permits(w) && caller in w.callers
    ensures Permits(OnLeave(w, caller))
  {
    var w' := OnLeave(w, caller);
    forall g | 0 <= g < |w'.pools|
      ensures |InFlight(w', g)| == w'.pools[g].held <= w'.pools[g].permits
    {
      assert |InFlight(w, g)| == w.pools[g].held;
      assert InFlight(w', g) == InFlight(w, g) - {caller};
      if w.callers[caller] == Completing(g) { assert caller in InFlight(w, g); }
    }
  }

  /** A step that adds at most one fresh pool and at most one waiting caller. */
  lemma WaitingKeepsPermits(w: World, w': World)
    requires Permits(w)
    requires |w.pools| <= |w'.pools| <= |w.pools| + 1 && w.pools <= w'.pools
    requires |w'.pools| > |w.pools| ==> w'.pools[|w.pools|].held == 0
    requires w.callers.Keys <= w'.callers.Keys
    requires forall c :: c in w'.callers ==>
               if c in w.callers then w'.callers[c] == w.callers[c]
               else w'.callers[c].Waiting? && w'.callers[c].pool < |w.pools|
    ensures Permits(w')
  {
    forall g | 0 <= g < |w'.pools|
      ensures |InFlight(w', g)| == w'.pools[g].held <= w'.pools[g].permits
    {
      assert InFlight(w', g) == InFlight(w, g);
      if g == |w.pools| {
        assert InFlight(w, g) == {};
      } else {
        assert w'.pools[g] == w.pools[g];
        assert |InFlight(w, g)| == w.pools[g].held;
      }
    }
  }

  lemma StepKeepsPermits(w: World, e: Event)
    requires Slots(w) && Permits(w)
    ensures Permits(Step(w, e))
  {
    match e {
      case Acquire(caller) => if CanAcquire(w, caller) { AcquireKeepsPermits(w, caller); }
      case Leave(caller) => if caller in w.callers { LeaveKeepsPermits(w, caller); }
      case _ => WaitingKeepsPermits(w, Step(w, e));
    }
  }

  lemma {:induction false} StepKeepsInv(w: World, e: Event)
    requires Inv(w)
    ensures Inv(Step(w, e))
  {
    StepKeepsLifecycle(w, e);
    StepKeepsSlots(w, e);
    StepKeepsCooldown(w, e);
    StepKeepsPermits(w, e);
  }

  lemma {:induction false} RunKeepsInv(w: World, events: seq<Event>)
    requires Inv(w)
    ensures Inv(Run(w, events))
    decreases |events|
  {
    if events != [] {
      var front := events[..|events| - 1];
      RunKeepsInv(w, front);
      StepKeepsInv(Run(w, front), events[|events| - 1]);
    }
  }

  lemma InitialInv()
    ensures Inv(INITIAL_WORLD)
  {
    assert InFlight(INITIAL_WORLD, 0) == {};
  }

  lemma {:induction false} ShutdownsCounted(w: World, events: seq<Event>)
    requires NoShutdown(events)
    ensures Run(w, events).shutdowns == w.shutdowns
    decreases |events|
  {
    if events != [] {
      ShutdownsCounted(w, events[..|events| - 1]);
    }
  }

  // ---- Main results -----------------------------------------------------------

  /**
   * In every run, neither starts nor live processes outnumber the orphaned starts
   * by more than one, and a state that reports a server holds the handle of the process on that
   * port, calibrated within the slots it was started with.
   */
  lemma {:induction false} ReadyMeansServing(events: seq<Event>)
    ensures var w := Run(INITIAL_WORLD, events);
            && |w.alive| <= 1 + w.orphans
            && |w.tasks| <= 1 + w.orphans
            && (w.server.state.Ready? ==>
                  && w.server.child.Some? && w.server.child.value.port == w.server.state.port
                  && 1 <= w.server.effectiveSlots <= w.server.parallelSlots <= MAX_SLOTS)
  {
    InitialInv();
    RunKeepsInv(INITIAL_WORLD, events);
    AliveBound(Run(INITIAL_WORLD, events));
  }

  lemma AliveBound(w: World)
    requires Processes(w)
    ensures |w.alive| <= |w.tasks| + ChildCount(w)
  {
    var held := if w.server.child.Some? then w.tasks.Keys + {w.server.child.value.pid} else w.tasks.Keys;
    InjectionBound(w.alive, held, map p | p in w.alive :: p);
  }

  /** A shutdown that meets a start under way: the start goes on, but the state forgets it. */
  predicate Orphans(w: World, e: Event) {
    e.Shutdown? && w.server.state.Starting?
  }

  ghost predicate NeverOrphans(events: seq<Event>) {
    forall k :: 0 <= k < |events| ==> !Orphans(Run(INITIAL_WORLD, events[..k]), events[k])
  }

  /** At most one start task is in flight, and the state is Starting exactly when one is. */
  predicate OneStart(w: World) {
    |w.tasks| <= 1 && (w.server.state.Starting? <==> |w.tasks| == 1)
  }

  lemma NeverOrphansSnoc(events: seq<Event>, e: Event)
    ensures NeverOrphans(events + [e]) <==> NeverOrphans(events) && !Orphans(Run(INITIAL_WORLD, events), e)
  {
    var all := events + [e];
    assert all[..|events|] == events && all[|events|] == e;
    assert forall k :: 0 <= k < |events| ==> all[..k] == events[..k] && all[k] == events[k];
    if NeverOrphans(all) {
      assert !Orphans(Run(INITIAL_WORLD, all[..|events|]), all[|events|]);
      forall k | 0 <= k < |events| ensures !Orphans(Run(INITIAL_WORLD, events[..k]), events[k]) {
        assert !Orphans(Run(INITIAL_WORLD, all[..k]), all[k]);
      }
    }
  }

  lemma StepCountsOrphans(w: World, e: Event)
    ensures Step(w, e).orphans == w.orphans + if Orphans(w, e) then 1 else 0
  {
  }

  lemma {:induction false} OrphansCounted(events: seq<Event>)
    ensures Run(INITIAL_WORLD, events).orphans == 0 <==> NeverOrphans(events)
  {
    if events != [] {
      var front, last := events[..|events| - 1], events[|events| - 1];
      OrphansCounted(front);
      StepCountsOrphans(Run(INITIAL_WORLD, front), last);
      NeverOrphansSnoc(front, last);
      assert front + [last] == events;
    }
  }

  /**
   * In every run in which no shutdown meets a start under way, at most one start
   * task is in flight, the state is Starting exactly when one is, and at most one
   * process is alive.
   */
  lemma {:induction false} AtMostOneServer(events: seq<Event>)
    requires NeverOrphans(events)
    ensures OneStart(Run(INITIAL_WORLD, events)) && |Run(INITIAL_WORLD, events).alive| <= 1
  {
    ReadyMeansServing(events);
    InitialInv();
    RunKeepsInv(INITIAL_WORLD, events);
    OrphansCounted(events);
  }

  lemma {:induction false} NeverOrphansFront(events: seq<Event>, n: nat)
    requires NeverOrphans(events) && n <= |events|
    ensures NeverOrphans(events[..n])
  {
    forall k | 0 <= k < n ensures !Orphans(Run(INITIAL_WORLD, events[..n][..k]), events[..n][k]) {
      assert events[..n][..k] == events[..k] && events[..n][k] == events[k];
    }
  }

  lemma OrphaningBreaksOneStart(events: seq<Event>, k: nat)
    requires k < |events| && Orphans(Run(INITIAL_WORLD, events[..k]), events[k])
    ensures OneStart(Run(INITIAL_WORLD, events[..k])) ==> !OneStart(Run(INITIAL_WORLD, events[..k + 1]))
  {
    assert events[..k + 1][..k] == events[..k];
  }

  /** The single start holds all through a run exactly when no shutdown meets a start under way. */
  lemma {:induction false} OneStartExactlyWhen(events: seq<Event>)
    ensures (forall n :: 0 <= n <= |events| ==> OneStart(Run(INITIAL_WORLD, events[..n]))) <==> NeverOrphans(events)
  {
    if NeverOrphans(events) {
      forall n | 0 <= n <= |events| ensures OneStart(Run(INITIAL_WORLD, events[..n])) {
        NeverOrphansFront(events, n);
        AtMostOneServer(events[..n]);
      }
    } else {
      var k :| 0 <= k < |events| && Orphans(Run(INITIAL_WORLD, events[..k]), events[k]);
      OrphaningBreaksOneStart(events, k);
    }
  }

  lemma {:induction false} RunConcat(w: World, xs: seq<Event>, ys: seq<Event>)
    ensures Run(w, xs + ys) == Run(Run(w, xs), ys)
    decreases |ys|
  {
    if ys == [] {
      assert xs + ys == xs;
    } else {
      var front := ys[..|ys| - 1];
      assert (xs + ys)[..|xs + ys| - 1] == xs + front;
      RunConcat(w, xs, front);
    }
  }

  /** Shutting down and requesting again, k times, on top of one first start. */
  function RestartStorm(k: nat): seq<Event> {
    if k == 0 then [Request(0, "m", 0), Launch(0, 0)]
    else RestartStorm(k - 1) + [Shutdown, Request(k, "m", 0), Launch(k, k)]
  }

  ghost predicate Stormy(w: World, k: nat) {
    && w.shutdowns == w.orphans == k && w.nextTask == k + 1 && w.callers == map[]
    && w.server.state.Starting? && w.server.child.None?
    && w.stored != [] && w.tasks.Keys == w.alive
    && (forall x: nat :: x in w.alive <==> x <= k)
  }

  lemma RunSnoc(w: World, events: seq<Event>, e: Event)
    ensures Run(w, events + [e]) == Step(Run(w, events), e)
  {
    assert (events + [e])[..|events|] == events;
  }

  lemma RunThree(w: World, a: Event, b: Event, c: Event)
    ensures Run(w, [a, b, c]) == Step(Step(Step(w, a), b), c)
  {
    RunSnoc(w, [], a);
    RunSnoc(w, [a], b);
    RunSnoc(w, [a, b], c);
    assert [] + [a] == [a] && [a] + [b] == [a, b] && [a, b] + [c] == [a, b, c];
  }

  lemma FirstStart(w: World, model: string)
    requires w == INITIAL_WORLD
    ensures Stormy(Step(Step(w, Request(0, model, 0)), Launch(0, 0)), 0)
  {
    var w1 := Step(w, Request(0, model, 0));
    assert w1.tasks.Keys == {0} && w1.alive == {} && w1.nextTask == 1;
    var w2 := Step(w1, Launch(0, 0));
    assert w2.tasks.Keys == {0} && w2.alive == {0};
  }

  lemma StormStart()
    ensures Stormy(Run(INITIAL_WORLD, RestartStorm(0)), 0)
  {
    var w := INITIAL_WORLD;
    FirstStart(w, "m");
    RunSnoc(w, [], Request(0, "m", 0));
    RunSnoc(w, [Request(0, "m", 0)], Launch(0, 0));
    assert RestartStorm(0) == [] + [Request(0, "m", 0)] + [Launch(0, 0)];
    assert [] + [Request(0, "m", 0)] == [Request(0, "m", 0)];
  }

  lemma StormRound(w: World, k: nat)
    requires Stormy(w, k)
    ensures Stormy(Run(w, [Shutdown, Request(k + 1, "m", 0), Launch(k + 1, k + 1)]), k + 1)
  {
    var w1 := Step(w, Shutdown);
    var w2 := Step(w1, Request(k + 1, "m", 0));
    assert w2.tasks.Keys == w.tasks.Keys + {k + 1};
    var w3 := Step(w2, Launch(k + 1, k + 1));
    assert w3.tasks.Keys == w2.tasks.Keys;
    assert w3.alive == w.alive + {k + 1};
    RunThree(w, Shutdown, Request(k + 1, "m", 0), Launch(k + 1, k + 1));
  }

  lemma {:induction false} StormState(k: nat)
    ensures Stormy(Run(INITIAL_WORLD, RestartStorm(k)), k)
  {
    if k == 0 {
      StormStart();
    } else {
      StormState(k - 1);
      StormRound(Run(INITIAL_WORLD, RestartStorm(k - 1)), k - 1);
      RunConcat(INITIAL_WORLD, RestartStorm(k - 1), [Shutdown, Request(k, "m", 0), Launch(k, k)]);
    }
  }

  /** The bound is exact: k shutdowns can leave k + 1 starts and processes behind. */
  lemma {:induction false} StormIsExtreme(k: nat)
    ensures var w := Run(INITIAL_WORLD, RestartStorm(k));
            && w.shutdowns == w.orphans == k && |w.tasks| == 1 + k && |w.alive| == 1 + k
  {
    StormState(k);
    CountBelow(k + 1, Run(INITIAL_WORLD, RestartStorm(k)).alive);
  }

  lemma {:induction false} PoolsKeepTheirSize(w: World, events: seq<Event>, g: nat)
    requires g < |w.pools|
    ensures g < |Run(w, events).pools| && Run(w, events).pools[g].permits == w.pools[g].permits
    decreases |events|
  {
    if events != [] {
      PoolsKeepTheirSize(w, events[..|events| - 1], g);
    }
  }

  /**
   * Whenever a server is ready with e effective slots, the completions holding
   * its permits never exceed e: not now, and not after any further run, however
   * many restarts install new semaphores while the old permits are held.
   */
  lemma {:induction false} CompletionsWithinEffectiveSlots(before: seq<Event>, after: seq<Event>)
    requires Run(INITIAL_WORLD, before).server.state.Ready?
    ensures var w := Run(INITIAL_WORLD, before);
            |InFlight(Run(w, after), w.server.semaphore)| <= w.server.effectiveSlots
  {
    var w := Run(INITIAL_WORLD, before);
    InitialInv();
    RunKeepsInv(INITIAL_WORLD, before);
    RunKeepsInv(w, after);
    PoolsKeepTheirSize(w, after, w.server.semaphore);
  }

  /**
   * In every run without a shutdown, no start is spawned within 60 s after a
   * failed one, whatever was requested in between.
   */
  lemma {:induction false} NoStartDuringCooldown(events: seq<Event>, i: nat, j: nat)
    requires NoShutdown(events)
    requires var h := Run(INITIAL_WORLD, events).history;
             i < j < |h| && h[i].StartFailure? && h[j].Spawned?
    ensures var h := Run(INITIAL_WORLD, events).history;
            h[i].at + FAILURE_COOLDOWN_MS <= h[j].at
  {
    InitialInv();
    RunKeepsInv(INITIAL_WORLD, events);
    ShutdownsCounted(INITIAL_WORLD, events);
  }

  /** Whatever happened, shutdowns included, no failure is dated ahead of the clock or of the failure reported. */
  ghost predicate FailuresDated(w: World) {
    && (w.server.state.Failed? ==> w.server.state.at <= w.now)
    && (forall i :: 0 <= i < |w.history| && w.history[i].StartFailure? ==>
          && w.history[i].at <= w.now
          && (w.server.state.Failed? ==> w.history[i].at <= w.server.state.at))
  }

  lemma {:induction false} RunKeepsFailuresDated(events: seq<Event>)
    ensures FailuresDated(Run(INITIAL_WORLD, events))
  {
    if events != [] {
      RunKeepsFailuresDated(events[..|events| - 1]);
      StepKeepsFailuresDated(Run(INITIAL_WORLD, events[..|events| - 1]), events[|events| - 1]);
    }
  }

  lemma StepKeepsFailuresDated(w: World, e: Event)
    requires FailuresDated(w)
    ensures FailuresDated(Step(w, e))
  {
  }

  /** Some start failed less than a cooldown ago. */
  ghost predicate RecentlyFailed(w: World) {
    exists i :: 0 <= i < |w.history| && w.history[i].StartFailure? && w.now < w.history[i].at + FAILURE_COOLDOWN_MS
  }

  /** The state a request starts a server from without looking at a clock. */
  predicate StartsAtOnce(w: World, model: string, slots: nat) {
    || w.server.state.NotStarted?
    || (w.server.state.Ready? && !ServerMatches(w.server.modelId, w.server.parallelSlots, model, slots))
  }

  lemma RecentFailureBlocks(w: World, caller: nat, model: string, slots: nat)
    requires FailuresDated(w) && RecentlyFailed(w)
    ensures OnRequest(w, caller, model, slots).history ==
            if StartsAtOnce(w, model, slots) then w.history + [Spawned(w.now)] else w.history
  {
    var i :| 0 <= i < |w.history| && w.history[i].StartFailure? && w.now < w.history[i].at + FAILURE_COOLDOWN_MS;
    assert w.server.state.Failed? ==> w.history[i].at <= w.server.state.at;
  }

  /**
   * In every run, shutdowns included: after a failure less than 60 s old, a
   * request starts a server exactly when the state is NotStarted, or Ready with
   * something else than was asked for.
   */
  lemma {:induction false} StartDespiteFailureExactlyWhen(events: seq<Event>, caller: nat, model: string, seen: nat)
    requires var w := Run(INITIAL_WORLD, events); RecentlyFailed(w) && CanRequest(w, caller, seen)
    ensures var w := Run(INITIAL_WORLD, events);
            Step(w, Request(caller, model, seen)).history ==
            if StartsAtOnce(w, model, w.stored[seen]) then w.history + [Spawned(w.now)] else w.history
  {
    RunKeepsFailuresDated(events);
    var w := Run(INITIAL_WORLD, events);
    RecentFailureBlocks(w, caller, model, w.stored[seen]);
  }

  /** The state, and what was asked for, from which a request starts a server. */
  predicate StartsServer(w: World, model: string, slots: nat) {
    || w.server.state.NotStarted?
    || (w.server.state.Ready? && !(w.server.modelId == Some(model) && w.server.parallelSlots == slots))
    || (w.server.state.Failed? && w.server.state.at + 60000 <= w.now)
  }

  /** The state from which a request is served. */
  predicate ServesRequest(w: World, model: string, slots: nat) {
    w.server.state.Ready? && w.server.modelId == Some(model) && w.server.parallelSlots == slots
  }

  /** One start more, for what was asked; a server that served something else is killed and forgotten. */
  ghost predicate OneStartMore(w: World, w': World, model: string, slots: nat) {
    && w.nextTask !in w.tasks
    && w' == w.(
         server := w.server.(state := Starting, child := if w.server.state.Ready? then None else w.server.child),
         tasks := w.tasks[w.nextTask := Task(model, slots, None)],
         nextTask := w.nextTask + 1,
         history := w.history + [Spawned(w.now)],
         alive := w'.alive)
    && forall p :: p in w'.alive <==>
         p in w.alive && !(w.server.state.Ready? && w.server.child.Some? && w.server.child.value.pid == p)
  }

  /**
   * What a request does in every run: it starts exactly one server with the model
   * and slots asked for, or is served, or changes nothing, by the state alone.  In
   * particular a failure 60 s old no longer stands in the way of a start.
   */
  lemma {:induction false} RequestDoes(events: seq<Event>, caller: nat, model: string, seen: nat)
    requires var w := Run(INITIAL_WORLD, events); caller !in w.callers && seen < |w.stored|
    ensures var w := Run(INITIAL_WORLD, events);
            var w', slots := Step(w, Request(caller, model, seen)), w.stored[seen];
            && (StartsServer(w, model, slots) ==> OneStartMore(w, w', model, slots))
            && (ServesRequest(w, model, slots) ==>
                  w' == w.(callers := w.callers[caller := Waiting(w.server.semaphore)]))
            && (!StartsServer(w, model, slots) && !ServesRequest(w, model, slots) ==> w' == w)
  {
    InitialInv();
    RunKeepsInv(INITIAL_WORLD, events);
    RequestDoesFrom(Run(INITIAL_WORLD, events), caller, model, seen);
  }

  lemma RequestDoesFrom(w: World, caller: nat, model: string, seen: nat)
    requires Processes(w) && caller !in w.callers && seen < |w.stored|
    ensures var w', slots := Step(w, Request(caller, model, seen)), w.stored[seen];
            && (StartsServer(w, model, slots) ==> OneStartMore(w, w', model, slots))
            && (ServesRequest(w, model, slots) ==>
                  w' == w.(callers := w.callers[caller := Waiting(w.server.semaphore)]))
            && (!StartsServer(w, model, slots) && !ServesRequest(w, model, slots) ==> w' == w)
  {
  }

  /** A start that succeeds is the server from then on: a request for the same model and slots is served by it. */
  lemma StartedServerServes(w: World, id: nat, soloMs: nat, burstMs: nat, caller: nat, seen: nat)
    requires Processes(w) && Slots(w) && id in w.tasks && w.tasks[id].port.Some?
    requires caller !in w.callers && seen < |w.stored| && w.stored[seen] == w.tasks[id].slots
    ensures var task := w.tasks[id];
            var w1 := Step(w, Succeed(id, soloMs, burstMs));
            && w1.server.state == Ready(task.port.value) && w1.server.child == Some(Child(id, task.port.value))
            && w1.tasks == w.tasks - {id} && w1.history == w.history
            && (forall p :: p in w1.alive <==>
                  p in w.alive && !(w.server.child.Some? && w.server.child.value.pid == p))
            && |w1.pools| == |w.pools| + 1
            && w1.pools[|w.pools|] == Pool(CalibrateEffectiveSlots(task.slots, soloMs, burstMs), 0)
            && Step(w1, Request(caller, task.model, seen)).callers == w.callers[caller := Waiting(|w.pools|)]
  {
  }

  /** A start task spawns its process once, on the port it found. */
  lemma LaunchDoes(w: World, id: nat, port: nat)
    requires id in w.tasks && w.tasks[id].port.None?
    ensures Step(w, Launch(id, port)) ==
            w.(tasks := w.tasks[id := Task(w.tasks[id].model, w.tasks[id].slots, Some(port))], alive := w.alive + {id})
  {
  }

  /** A start that fails is recorded and reported, and its process is gone. */
  lemma FailedStartIsReported(w: World, id: nat, reason: string)
    requires id in w.tasks
    ensures var w' := Step(w, Fail(id, reason));
            && w'.server == w.server.(state := Failed(reason, w.now))
            && w'.history == w.history + [StartFailure(w.now)]
            && w'.tasks == w.tasks - {id} && w'.alive == w.alive - {id}
  {
  }

  /** A shutdown kills the held process and lets every start under way go on. */
  lemma ShutdownDoes(w: World)
    ensures var w' := Step(w, Shutdown);
            && w'.server == w.server.(state := NotStarted, child := None)
            && w'.tasks == w.tasks && w'.history == w.history
            && (forall p :: p in w'.alive <==>
                  p in w.alive && !(w.server.child.Some? && w.server.child.value.pid == p))
  {
  }

  /** In every run a waiting completion gets a permit exactly when its generation has one free. */
  lemma {:induction false} PermitGrantedExactlyWhen(events: seq<Event>, caller: nat)
    requires var w := Run(INITIAL_WORLD, events); caller in w.callers && w.callers[caller].Waiting?
    ensures var w := Run(INITIAL_WORLD, events);
            var w', g := Step(w, Acquire(caller)), w.callers[caller].pool;
            && g < |w.pools|
            && (|InFlight(w, g)| < w.pools[g].permits ==> w'.callers == w.callers[caller := Completing(g)])
            && (|InFlight(w, g)| >= w.pools[g].permits ==> w' == w)
  {
    InitialInv();
    RunKeepsInv(INITIAL_WORLD, events);
    PermitsSuffice(Run(INITIAL_WORLD, events), caller);
  }

  lemma PermitsSuffice(w: World, caller: nat)
    requires Permits(w) && caller in w.callers && w.callers[caller].Waiting?
    ensures var w', g := Step(w, Acquire(caller)), w.callers[caller].pool;
            && g < |w.pools|
            && (|InFlight(w, g)| < w.pools[g].permits ==> w'.callers == w.callers[caller := Completing(g)])
            && (|InFlight(w, g)| >= w.pools[g].permits ==> w' == w)
  {
  }

  /** A completion that ends gives its permit back, so one that waits for it can go on. */
  lemma EndedCompletionFreesPermit(w: World, caller: nat, next: nat)
    requires Permits(w) && caller in w.callers && w.callers[caller].Completing?
    requires next in w.callers && w.callers[next] == Waiting(w.callers[caller].pool)
    ensures Step(Step(w, Leave(caller)), Acquire(next)).callers
         == (w.callers - {caller})[next := Completing(w.callers[caller].pool)]
  {
    var g := w.callers[caller].pool;
    assert caller in InFlight(w, g);
    assert |InFlight(w, g)| == w.pools[g].held;
    assert |InFlight(w, g)| >= 1;
  }

  /** Every start in the record lies at least a cooldown after every earlier failure. */
  ghost predicate CooldownKept(history: seq<Mark>) {
    forall i, j :: 0 <= i < j < |history| && history[i].StartFailure? && history[j].Spawned? ==>
      history[i].at + FAILURE_COOLDOWN_MS <= history[j].at
  }

  /** A request that starts a server although a start failed less than 60 s ago. */
  ghost predicate CutsCooldown(w: World, e: Event) {
    && e.Request? && CanRequest(w, e.caller, e.seen)
    && RecentlyFailed(w) && StartsAtOnce(w, e.model, w.stored[e.seen])
  }

  ghost predicate NeverCutsCooldown(events: seq<Event>) {
    forall k :: 0 <= k < |events| ==> !CutsCooldown(Run(INITIAL_WORLD, events[..k]), events[k])
  }

  /** A step appends at most one mark; with a recent failure, a start exactly when it cuts the cooldown. */
  lemma MarksAppended(w: World, e: Event)
    requires FailuresDated(w)
    ensures var h := w.history;
            Step(w, e).history in {h, h + [StartFailure(w.now)], h + [Spawned(w.now)]}
    ensures RecentlyFailed(w) ==> (Step(w, e).history == w.history + [Spawned(w.now)] <==> CutsCooldown(w, e))
  {
    var h := w.history;
    assert (h + [StartFailure(w.now)])[|h|] != (h + [Spawned(w.now)])[|h|];
    if e.Request? && CanRequest(w, e.caller, e.seen) && RecentlyFailed(w) {
      RecentFailureBlocks(w, e.caller, e.model, w.stored[e.seen]);
    }
  }

  lemma AppendKeepsCooldown(history: seq<Mark>, m: Mark)
    ensures CooldownKept(history + [m]) <==>
              && CooldownKept(history)
              && (m.Spawned? ==> forall i :: 0 <= i < |history| && history[i].StartFailure? ==>
                                   history[i].at + FAILURE_COOLDOWN_MS <= m.at)
  {
    var h := history + [m];
    assert forall i :: 0 <= i < |history| ==> h[i] == history[i];
    assert h[|history|] == m;
  }

  lemma StepKeepsCooldownUnlessCut(w: World, e: Event)
    requires FailuresDated(w)
    ensures CooldownKept(Step(w, e).history) <==> CooldownKept(w.history) && !CutsCooldown(w, e)
  {
    MarksAppended(w, e);
    AppendKeepsCooldown(w.history, StartFailure(w.now));
    AppendKeepsCooldown(w.history, Spawned(w.now));
  }

  lemma NeverCutsSnoc(events: seq<Event>, e: Event)
    ensures NeverCutsCooldown(events + [e]) <==>
            NeverCutsCooldown(events) && !CutsCooldown(Run(INITIAL_WORLD, events), e)
  {
    var all := events + [e];
    assert all[..|events|] == events && all[|events|] == e;
    assert forall k :: 0 <= k < |events| ==> all[..k] == events[..k] && all[k] == events[k];
    if NeverCutsCooldown(all) {
      assert !CutsCooldown(Run(INITIAL_WORLD, all[..|events|]), all[|events|]);
      forall k | 0 <= k < |events| ensures !CutsCooldown(Run(INITIAL_WORLD, events[..k]), events[k]) {
        assert !CutsCooldown(Run(INITIAL_WORLD, all[..k]), all[k]);
      }
    }
  }

  /** In every run the cooldown is kept exactly when no request cuts it. */
  lemma {:induction false} CooldownKeptExactlyWhen(events: seq<Event>)
    ensures CooldownKept(Run(INITIAL_WORLD, events).history) <==> NeverCutsCooldown(events)
  {
    if events != [] {
      var front, last := events[..|events| - 1], events[|events| - 1];
      var w := Run(INITIAL_WORLD, front);
      assert NeverCutsCooldown(events) <==> NeverCutsCooldown(front) && !CutsCooldown(w, last) by {
        NeverCutsSnoc(front, last);
        assert front + [last] == events;
      }
      var w' := Run(INITIAL_WORLD, events);
      assert CooldownKept(w'.history) <==> CooldownKept(w.history) && !CutsCooldown(w, last) by {
        RunKeepsFailuresDated(front);
        StepKeepsCooldownUnlessCut(w, last);
      }
      CooldownKeptExactlyWhen(front);
    }
  }

  /** A run in which it is cut: after a shutdown the next request starts at once. */
  lemma ShutdownVoidsCooldown()
    ensures Run(INITIAL_WORLD, [Request(0, "m", 0), Fail(0, "no binary"), Shutdown, Request(0, "m", 0)]).history
         == [Spawned(0), StartFailure(0), Spawned(0)]
  {
    var start: seq<Event> := [Request(0, "m", 0), Fail(0, "no binary"), Shutdown];
    RunThree(INITIAL_WORLD, start[0], start[1], start[2]);
    RunSnoc(INITIAL_WORLD, start, Request(0, "m", 0));
    assert start + [Request(0, "m", 0)] == [Request(0, "m", 0), Fail(0, "no binary"), Shutdown, Request(0, "m", 0)];
  }

  /** No shutdown, no other slot count, and requests only for this model by callers that read the current count. */
  ghost predicate SameDemand(e: Event, model: string, slots: nat, since: nat) {
    match e
    case Shutdown => false
    case Request(_, m, seen) => m == model && seen >= since
    case SetSlots(n) => StoredSlots(n) == slots
    case _ => true
  }

  /** Serving exactly the demanded configuration, with no start in flight and no other count stored since. */
  ghost predicate Settled(w: World, model: string, since: nat) {
    && w.server.state.Ready? && w.tasks == map[]
    && w.server.modelId == Some(model)
    && (forall k :: since <= k < |w.stored| ==> w.stored[k] == w.server.parallelSlots)
  }

  lemma SettledStep(w: World, e: Event, model: string, since: nat)
    requires Settled(w, model, since) && SameDemand(e, model, w.server.parallelSlots, since)
    ensures var w' := Step(w, e);
            Settled(w', model, since) && w'.server == w.server && w'.history == w.history
  {
  }

  lemma {:induction false} SettledRun(w: World, events: seq<Event>, model: string, since: nat)
    requires Settled(w, model, since)
    requires forall e :: e in events ==> SameDemand(e, model, w.server.parallelSlots, since)
    ensures var w' := Run(w, events);
            Settled(w', model, since) && w'.server == w.server && w'.history == w.history
    decreases |events|
  {
    if events != [] {
      SettledRun(w, events[..|events| - 1], model, since);
      SettledStep(Run(w, events[..|events| - 1]), events[|events| - 1], model, since);
    }
  }

  /**
   * A server, however far it was calibrated down, is never restarted by requests
   * for the same model and the same requested slots: after any further such run
   * the whole protected record and the record of starts are as they were.
   */
  lemma {:induction false} CalibratedServerStays(before: seq<Event>, after: seq<Event>, model: string, since: nat)
    requires NeverOrphans(before)
    requires var w := Run(INITIAL_WORLD, before);
             && w.server.state.Ready? && w.server.modelId == Some(model)
             && (forall k :: since <= k < |w.stored| ==> w.stored[k] == w.server.parallelSlots)
             && forall e :: e in after ==> SameDemand(e, model, w.server.parallelSlots, since)
    ensures var w, w' := Run(INITIAL_WORLD, before), Run(INITIAL_WORLD, before + after);
            w'.server == w.server && w'.history == w.history && w'.tasks == map[]
  {
    InitialInv();
    RunKeepsInv(INITIAL_WORLD, before);
    OrphansCounted(before);
    SettledRun(Run(INITIAL_WORLD, before), after, model, since);
    RunConcat(INITIAL_WORLD, before, after);
  }

  /** Every slot change came through the memory-bounded command, for a model of at least this size. */
  ghost predicate SlotsGranted(events: seq<Event>, ramGb: real, sizeGb: real) {
    forall e :: e in events && e.SetSlots? ==>
      exists r: nat, g: real :: g >= sizeGb && e.n == GrantedSlots(r, ramGb, g)
  }

  /** Every model asked for has at most this size. */
  ghost predicate ModelsWithin(events: seq<Event>, sizeOf: string -> real, sizeGb: real) {
    forall e :: e in events && e.Request? ==> sizeOf(e.model) <= sizeGb
  }

  ghost predicate FitsOrOne(n: nat, ramGb: real, modelGb: real) {
    n <= 1 || FitsInRam(n, ramGb, modelGb)
  }

  /** Every start in flight and the installed server fit next to their own models. */
  ghost predicate MemorySafe(w: World, ramGb: real, sizeOf: string -> real) {
    && (forall id :: id in w.tasks ==> FitsOrOne(w.tasks[id].slots, ramGb, sizeOf(w.tasks[id].model)))
    && (w.server.modelId.Some? ==> FitsOrOne(w.server.parallelSlots, ramGb, sizeOf(w.server.modelId.value)))
  }

  /** Every stored slot count fits next to a model of this size. */
  ghost predicate StoredSafe(w: World, ramGb: real, sizeGb: real) {
    forall k :: 0 <= k < |w.stored| ==> FitsOrOne(w.stored[k], ramGb, sizeGb)
  }

  lemma GrantIsSafe(r: nat, ramGb: real, g: real, sizeGb: real)
    requires sizeGb <= g
    ensures FitsOrOne(StoredSlots(GrantedSlots(r, ramGb, g)), ramGb, sizeGb)
  {
    GrantIsLargestFit(1, r, ramGb, g, 0);
    GrantIsLargestFit(GrantedSlots(r, ramGb, g), r, ramGb, g, 0);
  }

  lemma StepKeepsMemorySafe(w: World, e: Event, ramGb: real, sizeOf: string -> real, sizeGb: real)
    requires MemorySafe(w, ramGb, sizeOf) && StoredSafe(w, ramGb, sizeGb)
    requires SlotsGranted([e], ramGb, sizeGb) && ModelsWithin([e], sizeOf, sizeGb)
    ensures MemorySafe(Step(w, e), ramGb, sizeOf) && StoredSafe(Step(w, e), ramGb, sizeGb)
  {
    assert e in [e];
    if e.SetSlots? {
      var r: nat, g: real :| g >= sizeGb && e.n == GrantedSlots(r, ramGb, g);
      GrantIsSafe(r, ramGb, g, sizeGb);
    }
  }

  /**
   * When slot counts are only set through the memory-bounded command, for models
   * at least as large as any asked for, every server ever started has one slot
   * or fits in RAM together with its own model.
   */
  lemma {:induction false} ServersFitInMemory(events: seq<Event>, ramGb: real, sizeOf: string -> real, sizeGb: real)
    requires SlotsGranted(events, ramGb, sizeGb) && ModelsWithin(events, sizeOf, sizeGb)
    ensures MemorySafe(Run(INITIAL_WORLD, events), ramGb, sizeOf)
    ensures StoredSafe(Run(INITIAL_WORLD, events), ramGb, sizeGb)
    decreases |events|
  {
    if events != [] {
      var front := events[..|events| - 1];
      var e := events[|events| - 1];
      ServersFitInMemory(front, ramGb, sizeOf, sizeGb);
      assert e in events;
      StepKeepsMemorySafe(Run(INITIAL_WORLD, front), e, ramGb, sizeOf, sizeGb);
    }
  }

  /**
   * A grant made for one model is safe for another exactly when asking again for
   * the other would grant no fewer slots.
   */
  lemma {:induction false} GrantCarriesOverExactlyWhen(r: nat, ramGb: real, grantedFor: real, startedWith: real)
    ensures FitsOrOne(GrantedSlots(r, ramGb, grantedFor), ramGb, startedWith)
       <==> GrantedSlots(r, ramGb, grantedFor) <= GrantedSlots(r, ramGb, startedWith)
  {
    var n := GrantedSlots(r, ramGb, grantedFor);
    GrantIsLargestFit(n, r, ramGb, grantedFor, 0);
    GrantIsLargestFit(n, r, ramGb, startedWith, 0);
  }
}
