/** The trigger service as a transition system.

    One `Instance` is one running `Service` together with the goroutines it has
    started; a `World` is any number of instances sharing one lock server.
    Every step is one atomic section of the source: what happens between two
    points where another goroutine can observe or change shared state. */
module Protocol {
  import opened AdvisoryLock

  datatype Trigger = Trigger(internalID: int, uuid: int, name: string, kind: string, data: string)

  datatype Event = Event(trigger: Trigger, payload: string)

  /** Where a worker goroutine is. */
  datatype Phase =
    | Inserted            // in ownedTriggers, goroutine not started yet
    | Subscribing         // about to call subscriber.Subscribe
    | Forwarding          // at the outer select
    | Sending(event: Event) // at the inner select, holding one received event
    | Exiting             // deferred cleanup, about to read skipCleanup
    | Deleting            // read false, about to do the guarded delete
    | Releasing           // about to release the lock
    | Finishing           // about to call wg.Done
    | Finished

  /** `inbox` is what the subscriber has put on its channel and the worker has not
      received; `sourceClosed` says that there will be no more, be it that the
      channel was closed or that subscribing failed.  `received` and `sent` are
      histories. */
  datatype Worker = Worker(
    trigger: Trigger,
    cancelled: bool,
    skipCleanup: bool,
    phase: Phase,
    inbox: seq<Event>,
    sourceClosed: bool,
    received: seq<Event>,
    sent: seq<Event>)
  {
    function ID(): int { trigger.internalID }

    predicate BeforeExit() {
      phase.Inserted? || phase.Subscribing? || phase.Forwarding? || phase.Sending?
    }

    /** The goroutine has yet to decide whether to clean up. */
    predicate BeforeRead() { BeforeExit() || phase.Exiting? }

    /** The worker itself will release the lock once, if nobody takes that over. */
    predicate Owes() {
      (BeforeRead() && !skipCleanup) || phase.Deleting? || phase.Releasing?
    }

    /** Counted by the service's wait group. */
    predicate Counted() { !phase.Inserted? && !phase.Finished? }
  }

  function NewWorker(t: Trigger): Worker {
    Worker(t, false, false, Inserted, [], false, [], [])
  }

  /** Who asked for a worker: the listener for an unknown id, the listener for an
      id it already owns (so `alreadyLocked`), or `Start` with more to go. */
  datatype Cont = NewUpdate | Restart | InStart(todo: seq<Trigger>)

  /** The one goroutine that starts workers: first `Start`, then the listener. */
  datatype Control =
    | Starting(todo: seq<Trigger>)
    | StartFailed
    | Idle                                         // at the listener's select
    | Taken(update: Trigger)                       // about to look the id up
    | LookedUp(update: Trigger, prev: nat)          // about to set skipCleanup
    | Skipped(update: Trigger, prev: nat)           // about to cancel the old worker
    | Acquiring(trigger: Trigger, cont: Cont)
    | Building(trigger: Trigger, cont: Cont)       // mapSubscriber and Decode, then insert
    | BuildFailed(trigger: Trigger, cont: Cont)    // about to release
    | Rereleasing(trigger: Trigger)                // release after a failed restart
    | Spawning(made: nat, cont: Cont)             // inserted, about to start the goroutine
    | Stopping                                     // listener about to call wg.Done
    | Stopped
  {
    predicate InStartCall() {
      || Starting?
      || (Acquiring? && cont.InStart?)
      || (Building? && cont.InStart?)
      || (BuildFailed? && cont.InStart?)
      || (Spawning? && cont.InStart?)
    }

    /** The listener goroutine exists and has not called wg.Done. */
    predicate Counted() { !InStartCall() && !StartFailed? && !Stopped? }
  }

  /** An event on eventCh and the worker that put it there. */
  datatype Sent = Sent(worker: nat, event: Event)

  /** `workers` holds every worker ever started, by number.  `shutdowns` counts
      the callers inside Shutdown's wg.Wait; `watching` is the goroutine of `Start`
      that waits for the context to call it.  `consumed`, `last` (the last
      configuration taken for an id) and `leaked` (releases that failed while
      the lock was owed) are histories. */
  datatype Instance = Instance(
    owned: map<int, nat>,
    workers: seq<Worker>,
    control: Control,
    ctxDone: bool,
    updates: seq<Trigger>,
    updatesClosed: bool,
    wg: int,
    capacity: nat,
    buffer: seq<Sent>,
    consumed: seq<Sent>,
    closed: bool,
    shutdowns: nat,
    watching: bool,
    last: map<int, Trigger>,
    leaked: multiset<int>)

  datatype AcquireOutcome = Got | Busy | AcquireError

  /** The store, the subscribers and the consumer of eventCh. */
  datatype EnvironmentStep =
    | CancelContext
    | UpdateArrives(trigger: Trigger)
    | CloseUpdates
    | Emit(k: nat, payload: string)
    | CloseSource(k: nat)
    | Consume

  /** The body of `Start`. */
  datatype StartStep = StartNext | StartListener(ok: bool)

  /** The body of the update listener. */
  datatype ListenerStep =
    | Take
    | Lookup
    | SkipWrite
    | CancelOld
    | Rerelease(released: bool)
    | StopListening
    | ListenerDone

  /** The body of startTriggerWorkerInternal, on behalf of either. */
  datatype LaunchStep =
    | Acquire(outcome: AcquireOutcome)
    | BuildError
    | FailRelease(released: bool)
    | Insert
    | Spawn

  /** A worker goroutine. */
  datatype WorkerStep =
    | Subscribe(ok: bool)
    | Receive
    | Send
    | Handoff
    | ExitClosed
    | ExitCancelled
    | SkipRead
    | GuardedDelete
    | Release(released: bool)
    | Done

  datatype Step =
    | Environment(env: EnvironmentStep)
    | Start(start: StartStep)
    | Listener(listener: ListenerStep)
    | Launch(launch: LaunchStep)
    | OfWorker(k: nat, worker: WorkerStep)
    | ShutdownCall
    | ShutdownReturn
    | Watch               // the context is done: the goroutine of `Start` calls Shutdown

  function InitInstance(snapshot: seq<Trigger>, capacity: nat): Instance {
    Instance(map[], [], Starting(snapshot), false, [], false, 0, capacity, [], [], false, 0, false, map[], multiset{})
  }

  /** The worker's context is done: it was cancelled, or the service's own context was. */
  predicate WorkerCancelled(s: Instance, k: nat)
    requires k < |s.workers|
  {
    s.workers[k].cancelled || s.ctxDone
  }

  predicate EnvironmentEnabled(s: Instance, step: EnvironmentStep) {
    match step
    case CancelContext => !s.ctxDone
    case UpdateArrives(_) => !s.updatesClosed
    case CloseUpdates => !s.updatesClosed
    case Emit(k, _) => SourceOpen(s, k)
    case CloseSource(k) => SourceOpen(s, k)
    case Consume => s.buffer != []
  }

  /** The subscriber of worker `k` has started and not closed its channel. */
  predicate SourceOpen(s: Instance, k: nat) {
    k < |s.workers| && !s.workers[k].sourceClosed
    && !s.workers[k].phase.Inserted? && !s.workers[k].phase.Subscribing?
  }

  predicate StartEnabled(s: Instance, step: StartStep) {
    match step
    case StartNext => s.control.Starting? && s.control.todo != []
    case StartListener(_) => s.control == Starting([])
  }

  predicate ListenerEnabled(s: Instance, step: ListenerStep) {
    match step
    case Take => s.control.Idle? && s.updates != []
    case Lookup => s.control.Taken?
    case SkipWrite => s.control.LookedUp? && s.control.prev < |s.workers|
    case CancelOld => s.control.Skipped? && s.control.prev < |s.workers|
    case Rerelease(_) => s.control.Rereleasing?
    case StopListening => s.control.Idle? && (s.ctxDone || (s.updatesClosed && s.updates == []))
    case ListenerDone => s.control.Stopping?
  }

  predicate LaunchEnabled(s: Instance, step: LaunchStep) {
    match step
    case Acquire(_) => s.control.Acquiring?
    case BuildError => s.control.Building?
    case FailRelease(_) => s.control.BuildFailed?
    case Insert => s.control.Building?
    case Spawn => s.control.Spawning? && s.control.made < |s.workers|
  }

  predicate WorkerEnabled(s: Instance, k: nat, step: WorkerStep) {
    k < |s.workers| &&
    var w := s.workers[k];
    match step
    case Subscribe(_) => w.phase.Subscribing?
    case Receive => w.phase.Forwarding? && w.inbox != []
    case Send => w.phase.Sending? && !s.closed && |s.buffer| < s.capacity
    case Handoff => w.phase.Sending? && !s.closed && s.buffer == []
    case ExitClosed => w.phase.Forwarding? && w.sourceClosed && w.inbox == []
    case ExitCancelled => (w.phase.Forwarding? || w.phase.Sending?) && WorkerCancelled(s, k)
    case SkipRead => w.phase.Exiting?
    case GuardedDelete => w.phase.Deleting?
    case Release(_) => w.phase.Releasing?
    case Done => w.phase.Finishing?
  }

  predicate Enabled(s: Instance, step: Step) {
    match step
    case Environment(e) => EnvironmentEnabled(s, e)
    case Start(a) => StartEnabled(s, a)
    case Listener(l) => ListenerEnabled(s, l)
    case Launch(l) => LaunchEnabled(s, l)
    case OfWorker(k, w) => WorkerEnabled(s, k, w)
    case ShutdownCall => !s.control.InStartCall()
    case ShutdownReturn => s.shutdowns > 0 && s.wg == 0
    case Watch => s.watching && s.ctxDone
  }

  function EnvironmentNext(s: Instance, step: EnvironmentStep): Instance
    requires EnvironmentEnabled(s, step)
  {
    match step
    case CancelContext => s.(ctxDone := true)
    case UpdateArrives(t) => s.(updates := s.updates + [t])
    case CloseUpdates => s.(updatesClosed := true)
    case Emit(k, payload) =>
      var w := s.workers[k];
      s.(workers := s.workers[k := w.(inbox := w.inbox + [Event(w.trigger, payload)])])
    case CloseSource(k) => s.(workers := s.workers[k := s.workers[k].(sourceClosed := true)])
    case Consume => s.(buffer := s.buffer[1..], consumed := s.consumed + [s.buffer[0]])
  }

  function StartStepNext(s: Instance, step: StartStep): Instance
    requires StartEnabled(s, step)
  {
    match step
    case StartNext =>
      var t := s.control.todo[0];
      s.(control := Acquiring(t, InStart(s.control.todo[1..])), last := s.last[t.internalID := t])
    case StartListener(ok) =>
      if ok then s.(control := Idle, wg := s.wg + 1, watching := true) else s.(control := StartFailed)
  }

  function ListenerNext(s: Instance, step: ListenerStep): Instance
    requires ListenerEnabled(s, step)
  {
    match step
    case Take =>
      var u := s.updates[0];
      s.(control := Taken(u), updates := s.updates[1..], last := s.last[u.internalID := u])
    case Lookup =>
      var u := s.control.update;
      if u.internalID in s.owned then s.(control := LookedUp(u, s.owned[u.internalID]))
      else s.(control := Acquiring(u, NewUpdate))
    case SkipWrite =>
      var k := s.control.prev;
      s.(control := Skipped(s.control.update, k),
         workers := s.workers[k := s.workers[k].(skipCleanup := true)])
    case CancelOld =>
      var k := s.control.prev;
      s.(control := Building(s.control.update, Restart),
         workers := s.workers[k := s.workers[k].(cancelled := true)])
    case Rerelease(_) => s.(control := Idle)
    case StopListening => s.(control := Stopping)
    case ListenerDone => s.(control := Stopped, wg := s.wg - 1)
  }

  /** Back to the loop that asked for a worker, with or without an error. */
  function Resume(cont: Cont, failed: bool): Control {
    if !cont.InStart? then Idle else if failed then StartFailed else Starting(cont.todo)
  }

  function LaunchNext(s: Instance, step: LaunchStep): Instance
    requires LaunchEnabled(s, step)
  {
    match step
    case Acquire(outcome) =>
      s.(control := if outcome.Got? then Building(s.control.trigger, s.control.cont)
                    else Resume(s.control.cont, outcome.AcquireError?))
    case BuildError => s.(control := BuildFailed(s.control.trigger, s.control.cont))
    case FailRelease(released) =>
      var x := s.control.trigger.internalID;
      s.(control := if s.control.cont.Restart? then Rereleasing(s.control.trigger) else Resume(s.control.cont, true),
         leaked := if released then s.leaked else s.leaked + multiset{x})
    case Insert =>
      var t := s.control.trigger;
      s.(control := Spawning(|s.workers|, s.control.cont),
         owned := s.owned[t.internalID := |s.workers|],
         workers := s.workers + [NewWorker(t)])
    case Spawn =>
      var k := s.control.made;
      s.(control := Resume(s.control.cont, false), wg := s.wg + 1,
         workers := s.workers[k := s.workers[k].(phase := Subscribing)])
  }

  function WorkerNext(s: Instance, k: nat, step: WorkerStep): Instance
    requires WorkerEnabled(s, k, step)
  {
    var w := s.workers[k];
    match step
    case Subscribe(ok) =>
      s.(workers := s.workers[k := w.(phase := if ok then Forwarding else Exiting, sourceClosed := w.sourceClosed || !ok)])
    case Receive =>
      var e := w.inbox[0];
      s.(workers := s.workers[k := w.(phase := Sending(e), inbox := w.inbox[1..], received := w.received + [e])])
    case Send =>
      var e := w.phase.event;
      s.(workers := s.workers[k := w.(phase := Forwarding, sent := w.sent + [e])],
         buffer := s.buffer + [Sent(k, e)])
    case Handoff =>
      var e := w.phase.event;
      s.(workers := s.workers[k := w.(phase := Forwarding, sent := w.sent + [e])],
         consumed := s.consumed + [Sent(k, e)])
    case ExitClosed => s.(workers := s.workers[k := w.(phase := Exiting)])
    case ExitCancelled => s.(workers := s.workers[k := w.(phase := Exiting)])
    case SkipRead =>
      s.(workers := s.workers[k := w.(phase := if w.skipCleanup then Finishing else Deleting)])
    case GuardedDelete =>
      s.(workers := s.workers[k := w.(phase := Releasing)],
         owned := if w.ID() in s.owned && s.owned[w.ID()] == k then s.owned - {w.ID()} else s.owned)
    case Release(released) =>
      s.(workers := s.workers[k := w.(phase := Finishing)],
         leaked := if released then s.leaked else s.leaked + multiset{w.ID()})
    case Done => s.(workers := s.workers[k := w.(phase := Finished)], wg := s.wg - 1)
  }

  /** Only worker `k` changed, and neither its configuration nor its flags; it
      left the map, if it did, only after its exit. */
  ghost predicate TouchesOne(s: Instance, s': Instance, k: nat) {
    && k < |s.workers| == |s'.workers|
    && var w, w' := s.workers[k], s'.workers[k];
    && s'.workers == s.workers[k := w']
    && w'.trigger == w.trigger && w'.cancelled == w.cancelled && w'.skipCleanup == w.skipCleanup
    && !w.phase.Inserted? && !w'.phase.Inserted?
    && (w'.BeforeExit() ==> w.BeforeExit())
    && s'.control == s.control && s'.last == s.last && s'.ctxDone == s.ctxDone
    && s'.updates == s.updates && s'.updatesClosed == s.updatesClosed
    && s'.capacity == s.capacity && s'.closed == s.closed && s'.shutdowns == s.shutdowns && s'.watching == s.watching
    && (s'.owned == s.owned
        || (w.ID() in s.owned && s.owned[w.ID()] == k && s'.owned == s.owned - {w.ID()} && w.phase.Deleting?
            && w'.phase.Releasing?))
  }

  lemma WorkerTouchesOne(s: Instance, k: nat, step: WorkerStep)
    requires WorkerEnabled(s, k, step)
    ensures TouchesOne(s, WorkerNext(s, k, step), k)
  {
  }

  /** `ownedTriggers` has worker `k` under some id. */
  predicate InMap(s: Instance, k: nat) { exists x | x in s.owned :: s.owned[x] == k }

  /** Every worker in `ownedTriggers` is cancelled. */
  function CancelOwned(s: Instance): seq<Worker> {
    seq(|s.workers|, k requires 0 <= k < |s.workers| =>
      if InMap(s, k) then s.workers[k].(cancelled := true) else s.workers[k])
  }

  function Next(s: Instance, step: Step): Instance
    requires Enabled(s, step)
  {
    match step
    case Environment(e) => EnvironmentNext(s, e)
    case Start(a) => StartStepNext(s, a)
    case Listener(l) => ListenerNext(s, l)
    case Launch(l) => LaunchNext(s, l)
    case OfWorker(k, w) => WorkerNext(s, k, w)
    case ShutdownCall => s.(workers := CancelOwned(s), shutdowns := s.shutdowns + 1)
    case ShutdownReturn => s.(shutdowns := s.shutdowns - 1, closed := true)
    case Watch => s.(workers := CancelOwned(s), shutdowns := s.shutdowns + 1, watching := false)
  }

  /** Nothing that bears on ownership changed: the environment and the callers
      of Shutdown leave the map, the control, and every worker's phase and flag. */
  ghost predicate Undisturbed(s: Instance, s': Instance) {
    && s'.owned == s.owned && s'.control == s.control && s'.last == s.last
    && s'.leaked == s.leaked && s'.wg == s.wg && s'.capacity == s.capacity
    && |s'.workers| == |s.workers|
    && (forall k: nat | k < |s.workers| ::
          && s'.workers[k].trigger == s.workers[k].trigger
          && s'.workers[k].phase == s.workers[k].phase
          && s'.workers[k].skipCleanup == s.workers[k].skipCleanup
          && (WorkerCancelled(s, k) ==> WorkerCancelled(s', k)))
  }

  /** Steps of the environment and of the callers of Shutdown. */
  predicate FromOutside(step: Step) { step.Environment? || step.ShutdownCall? || step.ShutdownReturn? || step.Watch? }

  lemma EnvironmentUndisturbed(s: Instance, step: EnvironmentStep)
    requires EnvironmentEnabled(s, step)
    ensures Undisturbed(s, EnvironmentNext(s, step))
  {
  }

  lemma OutsideUndisturbed(s: Instance, step: Step)
    requires FromOutside(step) && Enabled(s, step)
    ensures Undisturbed(s, Next(s, step))
    ensures LockCallOf(s, step) == NoCall
  {
    if step.Environment? { EnvironmentUndisturbed(s, step.env); }
  }

  /** What a step asks of the lock server. */
  datatype LockCall = NoCall | Try(key: int, outcome: AcquireOutcome) | Free(key: int, released: bool)

  function LockCallOf(s: Instance, step: Step): LockCall
    requires Enabled(s, step)
  {
    match step
    case Launch(Acquire(outcome)) => Try(s.control.trigger.internalID, outcome)
    case Launch(FailRelease(released)) => Free(s.control.trigger.internalID, released)
    case Listener(Rerelease(released)) => Free(s.control.trigger.internalID, released)
    case OfWorker(k, Release(released)) => Free(s.workers[k].ID(), released)
    case _ => NoCall
  }

  /** The server answers truthfully; a call that fails changes nothing. */
  predicate Answers(t: LockTable, i: nat, call: LockCall) {
    call.Try? && !call.outcome.AcquireError? ==> (call.outcome.Got? <==> FreeFor(t, i, call.key))
  }

  function Serve(t: LockTable, i: nat, call: LockCall): LockTable {
    match call
    case NoCall => t
    case Try(x, outcome) => if outcome.Got? then TryLock(t, i, x).1 else t
    case Free(x, released) => if released then Unlock(t, i, x) else t
  }

  datatype World = World(instances: seq<Instance>, locks: LockTable)

  datatype Move = Move(instance: nat, step: Step)

  predicate CanMove(w: World, m: Move) {
    && m.instance < |w.instances|
    && Enabled(w.instances[m.instance], m.step)
    && Answers(w.locks, m.instance, LockCallOf(w.instances[m.instance], m.step))
  }

  function MoveOn(w: World, m: Move): World
    requires CanMove(w, m)
  {
    var s := w.instances[m.instance];
    World(w.instances[m.instance := Next(s, m.step)], Serve(w.locks, m.instance, LockCallOf(s, m.step)))
  }

  /** A run is the sequence of moves taken from a world. */
  predicate IsRun(w: World, run: seq<Move>)
    decreases |run|
  {
    run != [] ==> CanMove(w, run[0]) && IsRun(MoveOn(w, run[0]), run[1..])
  }

  function After(w: World, run: seq<Move>): World
    requires IsRun(w, run)
    decreases |run|
  {
    if run == [] then w else After(MoveOn(w, run[0]), run[1..])
  }

  /** Nothing has started: every instance is at the top of `Start`, no lock is held. */
  ghost predicate Initial(w: World) {
    && w.locks == map[]
    && forall i | 0 <= i < |w.instances| ::
         exists todo, capacity :: w.instances[i] == InitInstance(todo, capacity)
  }

  /** Assumption (C): the triggers each `Start` loads have distinct internal ids. */
  ghost predicate DistinctIDs(ts: seq<Trigger>) {
    forall i, j | 0 <= i < j < |ts| :: ts[i].internalID != ts[j].internalID
  }

  ghost predicate InitialDistinct(w: World) {
    Initial(w) && forall i | 0 <= i < |w.instances| :: DistinctIDs(w.instances[i].control.todo)
  }
}
