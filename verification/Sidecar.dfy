/**
 * The llama.cpp server's mutex-guarded state.  `View` is the protected record
 * as a value; each function below is one critical section, and the class holds
 * the record's fields and performs the same sections by assignment.
 */
module Sidecar {
  import opened Prelude
  import opened SlotSizing

  const FAILURE_COOLDOWN_MS := 60000
  const INITIAL_TIMEOUT_MS := 60000.0

  datatype ServerState = NotStarted | Starting | Ready(port: nat) | Failed(reason: string, at: nat)

  /** A process handle: which start task spawned the process, and its port. */
  datatype Child = Child(pid: nat, port: nat)

  /** `semaphore` numbers the server generation whose permits are in force. */
  datatype View = View(
    state: ServerState,
    child: Option<Child>,
    modelId: Option<string>,
    parallelSlots: nat,
    effectiveSlots: nat,
    semaphore: nat,
    calibratedTimeout: real)

  const INITIAL_VIEW := View(NotStarted, None, None, 0, 0, 0, INITIAL_TIMEOUT_MS)

  datatype Refusal = RestartingForChange | StillStarting | CoolingDown(reason: string) | JustStarted

  datatype Ensured =
    | Serving(port: nat, semaphore: nat, timeout: real)
    | Refused(why: Refusal)
  {
    /** Whether this answer also spawned a start task. */
    predicate Spawns() {
      Refused? && (why == RestartingForChange || why == JustStarted)
    }
  }

  predicate ServerMatches(current: Option<string>, currentSlots: nat, model: string, slots: nat) {
    current == Some(model) && currentSlots == slots
  }

  predicate InCooldown(state: ServerState, now: nat)
    requires state.Failed?
  {
    now - state.at < FAILURE_COOLDOWN_MS
  }

  /** The answer to one request, and the handle it kills. */
  function Ensure(v: View, model: string, slots: nat, now: nat): (View, Ensured, Option<Child>) {
    match v.state
    case Ready(port) =>
      if ServerMatches(v.modelId, v.parallelSlots, model, slots) then
        (v, Serving(port, v.semaphore, v.calibratedTimeout), None)
      else
        (v.(child := None, state := Starting), Refused(RestartingForChange), v.child)
    case Starting => (v, Refused(StillStarting), None)
    case Failed(reason, at) =>
      if InCooldown(v.state, now) then
        (v, Refused(CoolingDown(reason)), None)
      else
        (v.(state := Starting), Refused(JustStarted), None)
    case NotStarted => (v.(state := Starting), Refused(JustStarted), None)
  }

  /** A start task found its server healthy and calibrated it; the replaced handle is dropped. */
  function Install(v: View, child: Child, model: string, slots: nat, soloMs: nat, burstMs: nat): View {
    View(Ready(child.port), Some(child), Some(model), slots,
         CalibrateEffectiveSlots(slots, soloMs, burstMs), v.semaphore + 1, CalibrateTimeout(burstMs))
  }

  function RecordFailure(v: View, reason: string, now: nat): View {
    v.(state := Failed(reason, now))
  }

  function StopServer(v: View): View {
    v.(child := None, state := NotStarted)
  }

  /** A state that reports a server holds that server's process, calibrated within the slots it was started with. */
  ghost predicate Consistent(v: View) {
    v.state.Ready? ==>
      && v.child.Some?
      && v.child.value.port == v.state.port
      && v.modelId.Some?
      && 1 <= v.effectiveSlots <= v.parallelSlots <= MAX_SLOTS
  }

  class SidecarState {
    var state: ServerState
    var child: Option<Child>
    var modelId: Option<string>
    var parallelSlots: nat
    var effectiveSlots: nat
    var semaphore: nat
    var calibratedTimeout: real

    ghost function Contents(): View
      reads this
    {
      View(state, child, modelId, parallelSlots, effectiveSlots, semaphore, calibratedTimeout)
    }

    ghost predicate Valid()
      reads this
    {
      Consistent(Contents())
    }

    constructor ()
      ensures Contents() == INITIAL_VIEW && Valid()
    {
      state, child, modelId := NotStarted, None, None;
      parallelSlots, effectiveSlots, semaphore := 0, 0, 0;
      calibratedTimeout := INITIAL_TIMEOUT_MS;
    }

    /** Serves exactly what was asked for, or changes nothing, or starts and kills whatever served something else. */
    method EnsureServerReady(model: string, slots: nat, now: nat)
      returns (answer: Ensured, killed: Option<Child>)
      requires Valid()
      modifies this
      ensures Valid()
      ensures (Contents(), answer, killed) == Ensure(old(Contents()), model, slots, now)
      ensures answer.Serving? <==> old(state).Ready? && old(modelId) == Some(model) && old(parallelSlots) == slots
      ensures answer.Serving? ==>
                && answer == Serving(old(state).port, old(semaphore), old(calibratedTimeout))
                && child.Some? && child.value.port == answer.port
      ensures answer.Spawns() <==>
                || old(state).NotStarted?
                || (old(state).Ready? && !(old(modelId) == Some(model) && old(parallelSlots) == slots))
                || (old(state).Failed? && old(state).at + 60000 <= now)
      ensures answer == Refused(StillStarting) <==> old(state).Starting?
      ensures old(state).Failed? && now < old(state).at + 60000 ==>
                answer == Refused(CoolingDown(old(state).reason))
      ensures if answer.Spawns() then
                && Contents() == old(Contents()).(state := Starting, child := child)
                && if old(state).Ready? then child.None? && killed == old(child) && killed.Some?
                   else child == old(child) && killed.None?
              else Contents() == old(Contents()) && killed.None?
    {
      killed := None;
      match state {
        case Ready(port) =>
          if ServerMatches(modelId, parallelSlots, model, slots) {
            answer := Serving(port, semaphore, calibratedTimeout);
          } else {
            killed := child;
            child := None;
            state := Starting;
            answer := Refused(RestartingForChange);
          }
        case Starting =>
          answer := Refused(StillStarting);
        case Failed(reason, at) =>
          if now - at < FAILURE_COOLDOWN_MS {
            answer := Refused(CoolingDown(reason));
          } else {
            state := Starting;
            answer := Refused(JustStarted);
          }
        case NotStarted =>
          state := Starting;
          answer := Refused(JustStarted);
      }
    }

    /** The tail of a start task whose server became healthy. */
    method StartSucceeded(started: Child, model: string, slots: nat, soloMs: nat, burstMs: nat)
      returns (dropped: Option<Child>)
      modifies this
      ensures Contents() == Install(old(Contents()), started, model, slots, soloMs, burstMs)
      ensures state == Ready(started.port) && child == Some(started) && dropped == old(child)
      ensures modelId == Some(model) && parallelSlots == slots && semaphore == old(semaphore) + 1
      ensures effectiveSlots == CalibrateEffectiveSlots(slots, soloMs, burstMs)
      ensures calibratedTimeout == CalibrateTimeout(burstMs)
      ensures 1 <= slots <= MAX_SLOTS ==> Valid()
    {
      if slots >= 1 {
        CalibrationIsLargestFit(1, slots, soloMs, burstMs);
      }
      dropped := child;
      child := Some(started);
      modelId := Some(model);
      parallelSlots := slots;
      effectiveSlots := CalibrateEffectiveSlots(slots, soloMs, burstMs);
      semaphore := semaphore + 1;
      calibratedTimeout := CalibrateTimeout(burstMs);
      state := Ready(started.port);
    }

    /** The tail of a start task that failed. */
    method StartFailed(reason: string, now: nat)
      modifies this`state
      ensures Contents() == RecordFailure(old(Contents()), reason, now) && Valid()
      ensures state == Failed(reason, now)
    {
      state := Failed(reason, now);
    }

    method Shutdown() returns (killed: Option<Child>)
      modifies this`child, this`state
      ensures Contents() == StopServer(old(Contents())) && Valid()
      ensures killed == old(child) && child == None && state == NotStarted
    {
      killed := child;
      child := None;
      state := NotStarted;
    }
  }
}
