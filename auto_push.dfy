/** The new-tab page's debounced auto-push: `scheduleAutoPush` clears the
    armed timer and arms a new one, the timer starts a push unless one is
    already running, and a push that finishes while another was requested
    schedules exactly one more. The module-level `autoPushTimer`,
    `autoPushInProgress` and `autoPushPending` are fields of `AutoPush`,
    beside the runtime's set of live timeouts; the transitions are stated
    once, as `Step`. */
module AutoPushScheduler {
  import opened Wrappers
  import opened JsonValue
  import SyncSettings

  /** The scheduler's state: `handle` is `autoPushTimer` (`null` as `None`),
      `live` the ids of the timeouts the runtime will still run, `nextId` the
      id the next `setTimeout` returns, and `started` and `finished` count
      pushes. */
  datatype SchedulerState = SchedulerState(
    handle: Option<nat>, live: set<nat>, nextId: nat,
    inProgress: bool, pending: bool, started: nat, finished: nat)

  /** Timeout ids are positive, so a stored handle is always truthy. */
  const Initial := SchedulerState(None, {}, 1, false, false, 0, 0)

  /** `scheduleAutoPush()` when the settings are (or are not) ready, the
      timeout with that id going off, and the push it started finishing (with
      the settings as they are then). */
  datatype Event = Schedule(ready: bool) | TimerFired(id: nat) | PushFinished(ready: bool)

  /** Only a live timeout can fire, and a push only finish while running. */
  predicate Enabled(s: SchedulerState, e: Event) {
    match e
    case Schedule(_) => true
    case TimerFired(id) => id in s.live
    case PushFinished(_) => s.inProgress
  }

  /** The timeouts a handle names. */
  function Armed(handle: Option<nat>): set<nat> {
    if handle.Some? then {handle.value} else {}
  }

  /** `scheduleAutoPush`: nothing when the settings are incomplete; otherwise
      `clearTimeout` on the stored handle, then a new `setTimeout`. */
  function ScheduleStep(s: SchedulerState, ready: bool): SchedulerState {
    if !ready then s
    else
      var cleared := s.live - Armed(s.handle);
      s.(handle := Some(s.nextId), live := cleared + {s.nextId}, nextId := s.nextId + 1)
  }

  function Step(s: SchedulerState, e: Event): SchedulerState
    requires Enabled(s, e)
  {
    match e
    case Schedule(ready) => ScheduleStep(s, ready)
    case TimerFired(id) =>
      var fired := s.(handle := None, live := s.live - {id});
      if s.inProgress then fired.(pending := true)
      else fired.(inProgress := true, started := s.started + 1)
    case PushFinished(ready) =>
      var done := s.(inProgress := false, finished := s.finished + 1);
      if s.pending then ScheduleStep(done.(pending := false), ready) else done
  }

  /** A run of events, each enabled when it happens. */
  predicate Feasible(s: SchedulerState, events: seq<Event>)
    decreases |events|
  {
    events == [] || (Enabled(s, events[0]) && Feasible(Step(s, events[0]), events[1..]))
  }

  function Run(s: SchedulerState, events: seq<Event>): SchedulerState
    requires Feasible(s, events)
    decreases |events|
  {
    if events == [] then s else Run(Step(s, events[0]), events[1..])
  }

  /** What the scheduler keeps true: the only live timeout is the stored
      handle, handles come from earlier `setTimeout` calls, a push is pending
      only while one runs, and at most one push is running. */
  predicate Valid(s: SchedulerState) {
    && s.live == Armed(s.handle)
    && (s.handle.Some? ==> s.handle.value < s.nextId)
    && (s.pending ==> s.inProgress)
    && s.started == s.finished + (if s.inProgress then 1 else 0)
  }

  lemma StepValid(s: SchedulerState, e: Event)
    requires Valid(s) && Enabled(s, e)
    ensures Valid(Step(s, e))
  {
  }

  /** The invariant allows at most one live timeout. */
  lemma ValidOneTimer(s: SchedulerState)
    requires Valid(s)
    ensures |s.live| <= 1
    ensures s.live == {} <==> s.handle.None?
  {
  }

  /** Every run keeps the invariant, so no two pushes ever overlap and at most
      one timeout is ever live; the push counters and timeout ids only grow. */
  lemma {:induction false} RunValid(s: SchedulerState, events: seq<Event>)
    requires Valid(s) && Feasible(s, events)
    ensures Valid(Run(s, events))
    ensures var t := Run(s, events);
      t.started >= s.started && t.finished >= s.finished && t.nextId >= s.nextId
    decreases |events|
  {
    if events != [] {
      StepValid(s, events[0]);
      RunValid(Step(s, events[0]), events[1..]);
    }
  }

  /** Incomplete settings: no timeout is cleared or armed and no push starts. */
  lemma ScheduleNotReady(s: SchedulerState)
    ensures Step(s, Schedule(false)) == s
  {
  }

  /** Scheduling cancels the armed timeout and leaves exactly the new one
      live; nothing about the pushes changes. */
  lemma RescheduleKeepsOneTimer(s: SchedulerState)
    requires Valid(s)
    ensures var t := Step(s, Schedule(true));
      && t.handle == Some(s.nextId) && t.live == {s.nextId}
      && s.live !! t.live
      && t.(handle := s.handle, live := s.live, nextId := s.nextId) == s
  {
  }

  /** A timeout that fires during a push only records that another is wanted. */
  lemma FireWhileBusy(s: SchedulerState, id: nat)
    requires Valid(s) && id in s.live && s.inProgress
    ensures var t := Step(s, TimerFired(id));
      t.handle == None && t.live == {} && t.pending && t.inProgress && t.started == s.started
  {
  }

  /** A timeout that fires when idle starts exactly one push. */
  lemma FireWhenIdle(s: SchedulerState, id: nat)
    requires Valid(s) && id in s.live && !s.inProgress
    ensures var t := Step(s, TimerFired(id));
      && t.handle == None && t.live == {} && t.inProgress
      && t.started == s.started + 1 && t.pending == s.pending
  {
  }

  /** A finishing push clears the running flag; a pending request is cleared
      and turned into exactly one new schedule, which re-arms the timeout when
      the settings are still ready. */
  lemma FinishReschedules(s: SchedulerState, ready: bool)
    requires Valid(s) && s.inProgress
    ensures var t := Step(s, PushFinished(ready));
      && !t.inProgress && !t.pending && t.finished == s.finished + 1
      && (s.pending && ready ==> t.live == {s.nextId})
      && (!(s.pending && ready) ==> t.live == s.live)
  {
  }

  /** Any non-empty burst of schedules with ready settings cancels every
      timeout that was live before it, leaves exactly the last one armed, and
      starts nothing: the debounce. */
  lemma {:induction false} BurstOfSchedules(s: SchedulerState, n: nat)
    requires Valid(s) && n > 0
    ensures Feasible(s, seq(n, _ => Schedule(true)))
    ensures var t := Run(s, seq(n, _ => Schedule(true)));
      && t.handle == Some(s.nextId + n - 1) && t.live == {s.nextId + n - 1}
      && s.live !! t.live
      && t.(handle := s.handle, live := s.live, nextId := s.nextId) == s
    decreases n
  {
    var events := seq(n, _ => Schedule(true));
    var s' := Step(s, Schedule(true));
    RescheduleKeepsOneTimer(s);
    StepValid(s, Schedule(true));
    if n > 1 {
      assert events[1..] == seq(n - 1, _ => Schedule(true));
      BurstOfSchedules(s', n - 1);
    } else {
      assert events[1..] == [];
    }
  }

  const IncompleteMessage := "自动同步已开启，但同步配置不完整（需 gitUrl/token）"

  /** The page's scheduler with its three module-level variables, the
      runtime's live timeouts and the two push counters. */
  class AutoPush {
    var handle: Option<nat>
    var live: set<nat>
    var nextId: nat
    var inProgress: bool
    var pending: bool
    var started: nat
    var finished: nat

    function State(): SchedulerState
      reads this
    {
      SchedulerState(handle, live, nextId, inProgress, pending, started, finished)
    }

    constructor ()
      ensures State() == Initial
    {
      handle, live, nextId := None, {}, 1;
      inProgress, pending, started, finished := false, false, 0, 0;
    }

    /** `scheduleAutoPush()` with the page's current sync settings; returns the
        error shown when auto-push is on but the settings are incomplete. */
    method ScheduleAutoPush(sync: Json) returns (status: Option<string>)
      modifies this
      ensures State() == Step(old(State()), Schedule(SyncSettings.CanAutoPush(sync)))
      ensures status.Some? <==> !SyncSettings.CanAutoPush(sync) && Truthy(Get(sync, "autoPush"))
      ensures status.Some? ==> status.value == IncompleteMessage
    {
      var ready := SyncSettings.CanAutoPush(sync);
      var wanted := Truthy(Get(sync, "autoPush"));
      if !ready {
        status := if wanted then Some(IncompleteMessage) else None;
        return;
      }
      ghost var before := State();
      if handle.Some? {
        live := live - {handle.value};
      }
      handle := Some(nextId);
      live := live + {nextId};
      nextId := nextId + 1;
      assert State() == ScheduleStep(before, true);
      status := None;
    }

    /** The callback of timeout `id` up to the `await` of the push request. */
    method TimerFire(id: nat)
      requires id in live
      modifies this
      ensures State() == Step(old(State()), TimerFired(id))
    {
      live := live - {id};
      handle := None;
      if inProgress {
        pending := true;
        return;
      }
      inProgress := true;
      started := started + 1;
    }

    /** The callback's `finally` block, run when the push request settles
        (whatever its outcome), with the sync settings as they are then. */
    method PushSettled(sync: Json)
      requires inProgress
      modifies this
      ensures State() == Step(old(State()), PushFinished(SyncSettings.CanAutoPush(sync)))
    {
      inProgress := false;
      finished := finished + 1;
      if pending {
        pending := false;
        var _ := ScheduleAutoPush(sync);
      }
    }
  }
}
