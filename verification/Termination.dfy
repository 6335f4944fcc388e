/** Shutdown terminates: a bound on how many steps an instance can still take,
    and no deadlock on the way, with or without a consumer. */
module Termination {
  import opened AdvisoryLock
  import opened Protocol
  import opened Sums
  import opened WaitGroup

  /** What the world outside can bring without limit. */
  predicate IsArrival(step: Step) {
    step.ShutdownCall? || (step.Environment? && (step.env.UpdateArrives? || step.env.Emit?))
  }

  function PhaseRank(p: Phase): nat {
    match p
    case Inserted => 9
    case Subscribing => 8
    case Sending(_) => 7
    case Forwarding => 6
    case Exiting => 4
    case Deleting => 3
    case Releasing => 2
    case Finishing => 1
    case Finished => 0
  }

  /** Each pending event is worth a receive and a send; sending one puts it in the buffer. */
  function Weight(): Worker -> nat {
    (w: Worker) => 2 * PhaseRank(w.phase) + 6 * |w.inbox| + if w.sourceClosed then 0 else 1
  }

  function ControlRank(c: Control): nat {
    match c
    case Starting(todo) => 5 + 40 * |todo|
    case StartFailed => 0
    case Idle => 2
    case Taken(_) => 30
    case LookedUp(_, _) => 29
    case Skipped(_, _) => 28
    case Acquiring(_, cont) => 27 + ContRank(cont)
    case Building(_, cont) => 26 + ContRank(cont)
    case BuildFailed(_, cont) => 25 + ContRank(cont)
    case Rereleasing(_) => 24
    case Spawning(_, cont) => 6 + ContRank(cont)
    case Stopping => 1
    case Stopped => 0
  }

  function ContRank(cont: Cont): nat { if cont.InStart? then 1 + 40 * |cont.todo| else 0 }

  /** An upper bound on the steps still to come without arrivals. */
  function Measure(s: Instance): nat {
    40 * |s.updates| + ControlRank(s.control) + Sum(s.workers, Weight()) + |s.buffer| + s.shutdowns
    + (if s.ctxDone then 0 else 1) + (if s.updatesClosed then 0 else 1) + if s.watching then 2 else 0
  }

  lemma EnvironmentDecreases(s: Instance, step: EnvironmentStep)
    requires EnvironmentEnabled(s, step) && !step.UpdateArrives? && !step.Emit?
    ensures Measure(EnvironmentNext(s, step)) < Measure(s)
  {
    if step.CloseSource? {
      SumUpdate(s.workers, step.k, s.workers[step.k].(sourceClosed := true), Weight());
    }
  }

  lemma StartDecreases(s: Instance, step: StartStep)
    requires StartEnabled(s, step)
    ensures Measure(StartStepNext(s, step)) < Measure(s)
  {
    var s' := StartStepNext(s, step);
    assert s'.workers == s.workers && s'.updates == s.updates;
    if step.StartNext? {
      assert |s.control.todo[1..]| == |s.control.todo| - 1;
    }
  }

  lemma ListenerDecreases(s: Instance, step: ListenerStep)
    requires ListenerEnabled(s, step)
    ensures Measure(ListenerNext(s, step)) < Measure(s)
  {
    match step {
      case SkipWrite => FlaggingDecreases(s, step);
      case CancelOld => FlaggingDecreases(s, step);
      case Take => assert ListenerNext(s, Take).workers == s.workers;
      case Lookup => assert ListenerNext(s, Lookup).workers == s.workers;
      case _ => assert ListenerNext(s, step).workers == s.workers;
    }
  }

  lemma FlaggingDecreases(s: Instance, step: ListenerStep)
    requires ListenerEnabled(s, step) && (step.SkipWrite? || step.CancelOld?)
    ensures Measure(ListenerNext(s, step)) < Measure(s)
  {
    SumUpdate(s.workers, s.control.prev, ListenerNext(s, step).workers[s.control.prev], Weight());
  }

  lemma LaunchDecreases(s: Instance, step: LaunchStep)
    requires SpawnAgrees(s) && LaunchEnabled(s, step)
    ensures Measure(LaunchNext(s, step)) < Measure(s)
  {
    if step.Insert? {
      SumAppend(s.workers, NewWorker(s.control.trigger), Weight());
    } else if step.Spawn? {
      var k := s.control.made;
      SumUpdate(s.workers, k, s.workers[k].(phase := Subscribing), Weight());
    }
  }

  lemma WorkerSpends(s: Instance, k: nat, step: WorkerStep)
    requires WorkerEnabled(s, k, step)
    ensures var s' := WorkerNext(s, k, step);
            Weight()(s'.workers[k]) + |s'.buffer| < Weight()(s.workers[k]) + |s.buffer|
  {
  }

  lemma TouchingDecreases(s: Instance, s': Instance, k: nat)
    requires TouchesOne(s, s', k)
    requires Weight()(s'.workers[k]) + |s'.buffer| < Weight()(s.workers[k]) + |s.buffer|
    ensures Measure(s') < Measure(s)
  {
    SumUpdate(s.workers, k, s'.workers[k], Weight());
  }

  lemma WorkerDecreases(s: Instance, k: nat, step: WorkerStep)
    requires WorkerEnabled(s, k, step)
    ensures Measure(WorkerNext(s, k, step)) < Measure(s)
  {
    WorkerTouchesOne(s, k, step);
    WorkerSpends(s, k, step);
    TouchingDecreases(s, WorkerNext(s, k, step), k);
  }

  lemma OwnShutdownDecreases(s: Instance, step: Step)
    requires (step.ShutdownReturn? || step.Watch?) && Enabled(s, step)
    ensures Measure(Next(s, step)) < Measure(s)
  {
    var s' := Next(s, step);
    SumSame(s.workers, s'.workers, Weight());
  }

  /** Every step that is not an arrival uses the measure up. */
  lemma StepDecreases(s: Instance, step: Step)
    requires SpawnAgrees(s) && Enabled(s, step) && !IsArrival(step)
    ensures Measure(Next(s, step)) < Measure(s)
  {
    match step {
      case Environment(e) => EnvironmentDecreases(s, e);
      case Start(a) => StartDecreases(s, a);
      case Listener(l) => ListenerDecreases(s, l);
      case Launch(l) => LaunchDecreases(s, l);
      case OfWorker(k, w) => WorkerDecreases(s, k, w);
      case _ => OwnShutdownDecreases(s, step);
    }
  }

  /** The instance's own goroutines: no arrival, no consumer, no help from subscribers or the store. */
  predicate IsOwn(step: Step) { !step.Environment? && !step.ShutdownCall? }

  /** The step a cancelled worker can always take next. */
  function WorkerWayOut(s: Instance, k: nat): WorkerStep
    requires k < |s.workers|
  {
    match s.workers[k].phase
    case Subscribing => Subscribe(false)
    case Forwarding => ExitCancelled
    case Sending(_) => ExitCancelled
    case Exiting => SkipRead
    case Deleting => GuardedDelete
    case Releasing => Release(true)
    case _ => Done
  }

  /** The step the listener can always take next; `got` is the lock server's answer. */
  function ControlWayOut(s: Instance, got: bool): Step
    requires s.control.Counted()
  {
    match s.control
    case Idle => Listener(StopListening)
    case Taken(_) => Listener(Lookup)
    case LookedUp(_, _) => Listener(SkipWrite)
    case Skipped(_, _) => Listener(CancelOld)
    case Acquiring(_, _) => Launch(Acquire(if got then Got else Busy))
    case Building(_, _) => Launch(Insert)
    case BuildFailed(_, _) => Launch(FailRelease(true))
    case Rereleasing(_) => Listener(Rerelease(true))
    case Spawning(_, _) => Launch(Spawn)
    case _ => Listener(ListenerDone)
  }

  /** No deadlock: while the wait group is positive and the context is done, the
      instance itself can move, even if eventCh is full and nobody reads it. */
  lemma CanStillMove(w: World, i: nat) returns (m: Move)
    requires i < |w.instances|
    requires var s := w.instances[i];
             Counts(s) && s.ctxDone && s.wg > 0 && !s.control.InStartCall()
    ensures m.instance == i && IsOwn(m.step) && CanMove(w, m)
  {
    var s := w.instances[i];
    if s.control.Counted() {
      var got := s.control.Acquiring? && FreeFor(w.locks, i, s.control.trigger.internalID);
      m := Move(i, ControlWayOut(s, got));
    } else {
      SumPositive(s.workers, IsCounted());
      var k :| 0 <= k < |s.workers| && IsCounted()(s.workers[k]) > 0;
      m := Move(i, OfWorker(k, WorkerWayOut(s, k)));
    }
  }

  /** How many moves of a run are instance `i`'s. */
  function MovesOf(run: seq<Move>, i: nat): nat {
    if run == [] then 0 else (if run[0].instance == i then 1 else 0) + MovesOf(run[1..], i)
  }

  predicate NothingArrives(run: seq<Move>, i: nat) {
    forall m | m in run :: m.instance == i ==> !IsArrival(m.step)
  }

  lemma {:induction false} MovesAreBounded(w: World, run: seq<Move>, i: nat)
    requires i < |w.instances| && IsRun(w, run) && NothingArrives(run, i) && Counts(w.instances[i])
    ensures i < |After(w, run).instances|
    ensures MovesOf(run, i) + Measure(After(w, run).instances[i]) <= Measure(w.instances[i])
    decreases |run|
  {
    if run != [] {
      var w' := MoveOn(w, run[0]);
      if run[0].instance == i {
        StepDecreases(w.instances[i], run[0].step);
        StepCounts(w.instances[i], run[0].step);
      }
      MovesAreBounded(w', run[1..], i);
    }
  }

  /** Somebody is about to call Shutdown, inside it, or past it, and the context is done. */
  ghost predicate ShuttingDown(s: Instance) {
    Counts(s) && s.ctxDone && (s.watching || s.shutdowns > 0 || s.closed)
  }

  lemma OutsideKeepsShuttingDown(s: Instance, step: Step)
    requires ShuttingDown(s) && FromOutside(step) && Enabled(s, step)
    ensures ShuttingDown(Next(s, step))
  {
    StepCounts(s, step);
    if step.Environment? { EnvironmentLeavesShutdown(s, step.env); }
  }

  lemma StepKeepsShuttingDown(s: Instance, step: Step)
    requires ShuttingDown(s) && Enabled(s, step)
    ensures ShuttingDown(Next(s, step))
  {
    if FromOutside(step) {
      OutsideKeepsShuttingDown(s, step);
    } else {
      StepCounts(s, step);
    }
  }

  lemma {:induction false} RunKeepsShuttingDown(w: World, run: seq<Move>, i: nat)
    requires i < |w.instances| && IsRun(w, run) && ShuttingDown(w.instances[i])
    ensures i < |After(w, run).instances| && ShuttingDown(After(w, run).instances[i])
    decreases |run|
  {
    if run != [] {
      if run[0].instance == i {
        StepKeepsShuttingDown(w.instances[i], run[0].step);
      }
      RunKeepsShuttingDown(MoveOn(w, run[0]), run[1..], i);
    }
  }

  /** Shutdown terminates: with the context done, somebody about to call Shutdown or
      inside it, and nothing further arriving, the instance takes at most `Measure`
      more steps whatever the other instances do; and wherever it can go no further on
      its own, the wait group is empty, eventCh is closed and every caller has returned. */
  lemma ShutdownTerminates(w: World, run: seq<Move>, i: nat)
    requires i < |w.instances| && IsRun(w, run) && ShuttingDown(w.instances[i]) && NothingArrives(run, i)
    ensures i < |After(w, run).instances|
    ensures MovesOf(run, i) <= Measure(w.instances[i])
    ensures var w' := After(w, run);
            var s := w'.instances[i];
            (forall m: Move | m.instance == i && IsOwn(m.step) :: !CanMove(w', m)) ==>
              s.wg == 0 && s.closed && s.shutdowns == 0 && !s.watching && AllGone(s)
  {
    MovesAreBounded(w, run, i);
    RunKeepsShuttingDown(w, run, i);
    var w' := After(w, run);
    var s := w'.instances[i];
    if forall m: Move | m.instance == i && IsOwn(m.step) :: !CanMove(w', m) {
      assert !CanMove(w', Move(i, Watch));
      if s.wg > 0 {
        var m := CanStillMove(w', i);
        assert false;
      }
      UncountedMeansGone(s);
      assert !CanMove(w', Move(i, ShutdownReturn));
    }
  }

  /** Once `Start` has returned without an error, its goroutine waits for the
      context, or has called Shutdown, which waits in turn or has closed eventCh. */
  ghost predicate Watched(s: Instance) {
    s.control.InStartCall() || s.control.StartFailed? || s.watching || s.shutdowns > 0 || s.closed
  }

  lemma WatchedOutside(s: Instance, step: Step)
    requires Watched(s) && FromOutside(step) && Enabled(s, step)
    ensures Watched(Next(s, step))
  {
    OutsideUndisturbed(s, step);
    if step.Environment? { EnvironmentLeavesShutdown(s, step.env); }
  }

  lemma WatchedListener(s: Instance, step: ListenerStep)
    requires Watched(s) && ListenerEnabled(s, step)
    ensures Watched(ListenerNext(s, step))
  {
  }

  lemma WatchedLaunch(s: Instance, step: LaunchStep)
    requires Watched(s) && LaunchEnabled(s, step)
    ensures Watched(LaunchNext(s, step))
  {
  }

  lemma StepKeepsWatched(s: Instance, step: Step)
    requires Watched(s) && Enabled(s, step)
    ensures Watched(Next(s, step))
  {
    match step {
      case Start(_) =>
      case Listener(l) => WatchedListener(s, l);
      case Launch(l) => WatchedLaunch(s, l);
      case OfWorker(k, w) => WorkerTouchesOne(s, k, w);
      case _ => WatchedOutside(s, step);
    }
  }

  lemma {:induction false} RunKeepsWatched(w: World, run: seq<Move>, i: nat)
    requires i < |w.instances| && IsRun(w, run) && Watched(w.instances[i])
    ensures i < |After(w, run).instances| && Watched(After(w, run).instances[i])
    decreases |run|
  {
    if run != [] {
      if run[0].instance == i {
        StepKeepsWatched(w.instances[i], run[0].step);
      }
      RunKeepsWatched(MoveOn(w, run[0]), run[1..], i);
    }
  }

  /** The channel ends up closed: from any reachable state in which `Start` has
      returned without an error and the context is done, the instance takes boundedly
      many steps unless something arrives, and can only come to rest with eventCh
      closed and all its goroutines gone. */
  lemma ContextClosesChannel(w: World, run: seq<Move>, more: seq<Move>, i: nat)
    requires Initial(w) && IsRun(w, run) && i < |w.instances| && i < |After(w, run).instances|
    requires var s := After(w, run).instances[i];
             s.ctxDone && !s.control.InStartCall() && !s.control.StartFailed?
    requires IsRun(After(w, run), more) && NothingArrives(more, i)
    ensures i < |After(After(w, run), more).instances|
    ensures MovesOf(more, i) <= Measure(After(w, run).instances[i])
    ensures var w' := After(After(w, run), more);
            var s := w'.instances[i];
            (forall m: Move | m.instance == i && IsOwn(m.step) :: !CanMove(w', m)) ==> s.closed && AllGone(s)
  {
    InitialCounts(w);
    RunCounts(w, run);
    var todo, capacity :| w.instances[i] == InitInstance(todo, capacity);
    RunKeepsWatched(w, run, i);
    ShutdownTerminates(After(w, run), more, i);
  }
}
