/** The wait group, closing eventCh, and the drained state.  Nothing here assumes
    (A), (B) or (C) unless it says so. */
module WaitGroup {
  import opened AdvisoryLock
  import opened Sums
  import opened Protocol
  import opened Ownership
  import opened MutualExclusion

  function IsCounted(): Worker -> nat { (w: Worker) => if w.Counted() then 1 else 0 }

  /** Workers exist before their goroutine only while the control is about to start it. */
  ghost predicate SpawnAgrees(s: Instance) {
    && (s.control.Spawning? ==> s.control.made < |s.workers| && s.workers[s.control.made].phase.Inserted?)
    && (forall k: nat | k < |s.workers| && s.workers[k].phase.Inserted? ::
          s.control.Spawning? && s.control.made == k)
  }

  /** The map and the listener refer to workers that exist. */
  ghost predicate RefersInRange(s: Instance) {
    && (forall x | x in s.owned :: s.owned[x] < |s.workers|)
    && (s.control.LookedUp? || s.control.Skipped? ==> s.control.prev < |s.workers|)
  }

  /** The counter is the live listener plus the unfinished workers; Shutdown is
      only ever entered after Start, and eventCh only closed once all are gone. */
  ghost predicate Counts(s: Instance) {
    && SpawnAgrees(s) && RefersInRange(s)
    && s.wg == Sum(s.workers, IsCounted()) + (if s.control.Counted() then 1 else 0)
    && (s.watching || s.shutdowns > 0 || s.closed ==> !s.control.InStartCall())
    && (s.closed ==> s.wg == 0)
  }

  /** Every goroutine that could start a worker or send an event has ended. */
  ghost predicate AllGone(s: Instance) {
    && (s.control.Stopped? || s.control.StartFailed?)
    && forall k: nat | k < |s.workers| :: s.workers[k].phase.Finished?
  }

  lemma InitCounts(todo: seq<Trigger>, capacity: nat)
    ensures Counts(InitInstance(todo, capacity))
  {
  }

  lemma UncountedMeansGone(s: Instance)
    requires Counts(s) && s.wg == 0 && !s.control.InStartCall()
    ensures AllGone(s)
  {
    SumPositive(s.workers, IsCounted());
    forall k: nat | k < |s.workers| ensures s.workers[k].phase.Finished? {
      assert IsCounted()(s.workers[k]) == 0;
    }
  }

  lemma UndisturbedCounts(s: Instance, s': Instance)
    requires Counts(s) && Undisturbed(s, s')
    ensures SpawnAgrees(s') && RefersInRange(s')
    ensures s'.wg == Sum(s'.workers, IsCounted()) + if s'.control.Counted() then 1 else 0
  {
    SumSame(s.workers, s'.workers, IsCounted());
  }

  lemma OutsideCounts(s: Instance, step: Step)
    requires Counts(s) && FromOutside(step) && Enabled(s, step)
    ensures Counts(Next(s, step))
  {
    OutsideUndisturbed(s, step);
    UndisturbedCounts(s, Next(s, step));
    if step.Environment? { EnvironmentLeavesShutdown(s, step.env); }
  }

  lemma EnvironmentLeavesShutdown(s: Instance, step: EnvironmentStep)
    requires EnvironmentEnabled(s, step)
    ensures EnvironmentNext(s, step).closed == s.closed && EnvironmentNext(s, step).shutdowns == s.shutdowns
    ensures EnvironmentNext(s, step).watching == s.watching
  {
  }

  lemma StartCounts(s: Instance, step: StartStep)
    requires Counts(s) && StartEnabled(s, step)
    ensures Counts(StartStepNext(s, step))
  {
    var s' := StartStepNext(s, step);
    assert s'.workers == s.workers && s'.owned == s.owned;
  }

  /** One worker changed, in neither its existence nor its being counted. */
  lemma WriteCounts(s: Instance, s': Instance, k: nat)
    requires k < |s.workers| == |s'.workers|
    requires s'.workers == s.workers[k := s'.workers[k]] && s'.workers[k].phase == s.workers[k].phase
    ensures Sum(s'.workers, IsCounted()) == Sum(s.workers, IsCounted())
  {
    SumUpdate(s.workers, k, s'.workers[k], IsCounted());
  }

  lemma HandOverCounts(s: Instance, step: ListenerStep)
    requires Counts(s) && ListenerEnabled(s, step) && (step.SkipWrite? || step.CancelOld?)
    ensures Counts(ListenerNext(s, step))
  {
    WriteCounts(s, ListenerNext(s, step), s.control.prev);
  }

  lemma DoneCounts(s: Instance)
    requires Counts(s) && ListenerEnabled(s, ListenerDone)
    ensures Counts(ListenerNext(s, ListenerDone))
  {
    if s.closed {
      UncountedMeansGone(s);
    }
  }

  /** A listener step that only moves the listener on. */
  lemma ControlCounts(s: Instance, s': Instance)
    requires Counts(s) && s'.workers == s.workers && s'.owned == s.owned && s'.wg == s.wg
    requires s'.watching == s.watching && s'.shutdowns == s.shutdowns && s'.closed == s.closed
    requires s.control.Counted() && s'.control.Counted() && !s.control.Spawning? && !s'.control.Spawning?
    requires s'.control.LookedUp? || s'.control.Skipped? ==> s'.control.prev < |s'.workers|
    ensures Counts(s')
  {
  }

  lemma LookupCounts(s: Instance)
    requires Counts(s) && ListenerEnabled(s, Lookup)
    ensures Counts(ListenerNext(s, Lookup))
  {
    ControlCounts(s, ListenerNext(s, Lookup));
  }

  lemma TakeCounts(s: Instance)
    requires Counts(s) && ListenerEnabled(s, Take)
    ensures Counts(ListenerNext(s, Take))
  {
    ControlCounts(s, ListenerNext(s, Take));
  }

  lemma ListenerCounts(s: Instance, step: ListenerStep)
    requires Counts(s) && ListenerEnabled(s, step)
    ensures Counts(ListenerNext(s, step))
  {
    match step {
      case SkipWrite => HandOverCounts(s, step);
      case CancelOld => HandOverCounts(s, step);
      case ListenerDone => DoneCounts(s);
      case Take => TakeCounts(s);
      case Lookup => LookupCounts(s);
      case _ => ControlCounts(s, ListenerNext(s, step));
    }
  }

  lemma InsertCounts(s: Instance)
    requires Counts(s) && LaunchEnabled(s, Insert)
    ensures Counts(LaunchNext(s, Insert))
  {
    SumAppend(s.workers, NewWorker(s.control.trigger), IsCounted());
  }

  lemma SpawnCounts(s: Instance)
    requires Counts(s) && LaunchEnabled(s, Spawn)
    ensures Counts(LaunchNext(s, Spawn))
  {
    var k := s.control.made;
    SumUpdate(s.workers, k, s.workers[k].(phase := Subscribing), IsCounted());
  }

  lemma LaunchCounts(s: Instance, step: LaunchStep)
    requires Counts(s) && LaunchEnabled(s, step)
    ensures Counts(LaunchNext(s, step))
  {
    if step.Insert? {
      InsertCounts(s);
    } else if step.Spawn? {
      SpawnCounts(s);
    } else {
      assert LaunchNext(s, step).workers == s.workers;
    }
  }

  lemma WorkerCount(s: Instance, k: nat, step: WorkerStep)
    requires WorkerEnabled(s, k, step)
    ensures var s' := WorkerNext(s, k, step);
            s.workers[k].Counted() && s'.workers[k].Counted() == !step.Done?
            && s'.wg == s.wg - if step.Done? then 1 else 0
  {
  }

  lemma WorkerCounts(s: Instance, k: nat, step: WorkerStep)
    requires Counts(s) && WorkerEnabled(s, k, step)
    ensures Counts(WorkerNext(s, k, step))
  {
    var s' := WorkerNext(s, k, step);
    WorkerCount(s, k, step);
    WorkerTouchesOne(s, k, step);
    SumUpdate(s.workers, k, s'.workers[k], IsCounted());
    if s.closed {
      UncountedMeansGone(s);
      assert false;
    }
  }

  lemma StepCounts(s: Instance, step: Step)
    requires Counts(s) && Enabled(s, step)
    ensures Counts(Next(s, step))
  {
    match step {
      case Start(a) => StartCounts(s, a);
      case Listener(l) => ListenerCounts(s, l);
      case Launch(l) => LaunchCounts(s, l);
      case OfWorker(k, w) => WorkerCounts(s, k, w);
      case _ => OutsideCounts(s, step);
    }
  }

  /** Once closed, the instance stays closed and nothing more is ever put on
      eventCh: no goroutine is left to do it, so no send meets a closed channel. */
  lemma NothingSentAfterClose(s: Instance, step: Step)
    requires Counts(s) && s.closed && Enabled(s, step)
    ensures AllGone(s) && Next(s, step).closed
    ensures FromOutside(step)
    ensures var s' := Next(s, step); s'.consumed + s'.buffer == s.consumed + s.buffer
  {
    UncountedMeansGone(s);
    if step.Environment? { EnvironmentLeavesShutdown(s, step.env); }
  }

  lemma {:induction false} RunCounts(w: World, run: seq<Move>)
    requires IsRun(w, run) && forall i: nat | i < |w.instances| :: Counts(w.instances[i])
    ensures |After(w, run).instances| == |w.instances|
    ensures forall i: nat | i < |w.instances| :: Counts(After(w, run).instances[i])
    decreases |run|
  {
    if run != [] {
      StepCounts(w.instances[run[0].instance], run[0].step);
      RunCounts(MoveOn(w, run[0]), run[1..]);
    }
  }

  lemma InitialCounts(w: World)
    requires Initial(w)
    ensures forall i: nat | i < |w.instances| :: Counts(w.instances[i])
  {
    forall i: nat | i < |w.instances| ensures Counts(w.instances[i]) {
      var todo, capacity :| w.instances[i] == InitInstance(todo, capacity);
      InitCounts(todo, capacity);
    }
  }

  /** Safe closing, over every run and without any assumption: no worker of a
      closed instance is at its send, or anywhere but finished. */
  lemma NoSendAfterClose(w: World, run: seq<Move>, i: nat)
    requires Initial(w) && IsRun(w, run) && i < |After(w, run).instances|
    ensures var s := After(w, run).instances[i];
            && s.wg == Sum(s.workers, IsCounted()) + (if s.control.Counted() then 1 else 0)
            && (s.closed ==> AllGone(s))
  {
    InitialCounts(w);
    RunCounts(w, run);
    if After(w, run).instances[i].closed {
      UncountedMeansGone(After(w, run).instances[i]);
    }
  }

  /** Clean drain: under (A), (B) and (C), once a caller of Shutdown is past
      wg.Wait the map is empty and the instance holds exactly the locks whose
      release failed; so it holds none if and only if no release failed. */
  lemma CleanDrain(w: World, run: seq<Move>, i: nat)
    requires InitialDistinct(w) && IsRun(w, run) && GoodRun(w, run) && i < |After(w, run).instances|
    requires var s := After(w, run).instances[i]; s.closed || (s.shutdowns > 0 && s.wg == 0)
    ensures var w' := After(w, run);
            var s := w'.instances[i];
            && s.owned == map[]
            && (forall x: int :: Held(w'.locks, i, x) == s.leaked[x])
            && ((forall x: int :: Held(w'.locks, i, x) == 0) <==> s.leaked == multiset{})
  {
    InitiallySound(w);
    GoodRunSound(w, run);
    InitialCounts(w);
    RunCounts(w, run);
    var w' := After(w, run);
    var s := w'.instances[i];
    UncountedMeansGone(s);
    forall x: int ensures Held(w'.locks, i, x) == s.leaked[x] {
      HoldCount(w, run, i, x);
      SumPositive(s.workers, OwesFor(x));
    }
    HoldsNothing(w'.locks, i, s.leaked);
    DrainedMapIsEmpty(s);
  }

  lemma FinishedIsNotOwned(s: Instance, x: int)
    requires HandOver(s) && AllGone(s)
    ensures x !in s.owned
  {
  }

  lemma DrainedMapIsEmpty(s: Instance)
    requires HandOver(s) && AllGone(s)
    ensures s.owned == map[]
  {
    forall x ensures x !in s.owned {
      if x in s.owned {
        FinishedIsNotOwned(s, x);
      }
    }
  }

  lemma HoldsNothing(locks: LockTable, i: nat, leaked: multiset<int>)
    requires forall x: int :: Held(locks, i, x) == leaked[x]
    ensures (forall x: int :: Held(locks, i, x) == 0) <==> leaked == multiset{}
  {
    if forall x: int :: Held(locks, i, x) == 0 {
      forall x: int ensures leaked[x] == 0 {
        assert Held(locks, i, x) == 0;
      }
      assert forall x: int :: leaked[x] == multiset{}[x];
      assert leaked == multiset{};
    }
  }
}
