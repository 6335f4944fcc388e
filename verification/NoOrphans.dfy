/** No orphan workers, and configuration agreement: what every step keeps even
    when restarts fail and the hand-over race is lost.  Only distinct ids in the
    `Start` snapshot are assumed. */
module NoOrphans {
  import opened Protocol

  /** The worker goroutine is before its exit and nobody has cancelled it. */
  predicate Live(s: Instance, k: nat) {
    k < |s.workers| && s.workers[k].BeforeExit() && !WorkerCancelled(s, k)
  }

  ghost predicate Clear(s: Instance, x: int) {
    forall k: nat | Live(s, k) :: s.workers[k].ID() != x
  }

  ghost predicate OwnedAgree(s: Instance) {
    forall x | x in s.owned :: s.owned[x] < |s.workers| && s.workers[s.owned[x]].ID() == x
  }

  ghost predicate LiveIsOwned(s: Instance) {
    forall k: nat | Live(s, k) :: s.workers[k].ID() in s.owned && s.owned[s.workers[k].ID()] == k
  }

  ghost predicate OnlyMadeIsInserted(s: Instance) {
    forall k: nat | 0 <= k < |s.workers| && s.workers[k].phase.Inserted? :: s.control.Spawning? && s.control.made == k
  }

  ghost predicate ControlAgrees(s: Instance) {
    match s.control
    case LookedUp(u, p) =>
      && p < |s.workers| && s.workers[p].ID() == u.internalID
      && (u.internalID in s.owned ==> s.owned[u.internalID] == p)
    case Skipped(u, p) =>
      && p < |s.workers| && s.workers[p].ID() == u.internalID
      && (u.internalID in s.owned ==> s.owned[u.internalID] == p)
    case Acquiring(t, cont) => Clear(s, t.internalID) && !cont.Restart?
    case Building(t, _) => Clear(s, t.internalID)
    case BuildFailed(t, _) => Clear(s, t.internalID)
    case Rereleasing(t) => Clear(s, t.internalID)
    case Spawning(m, _) => m < |s.workers| && s.workers[m].phase.Inserted?
    case _ => true
  }

  /** Triggers `Start` has still to go through. */
  function Todo(c: Control): seq<Trigger> {
    if c.Starting? then c.todo
    else if (c.Acquiring? || c.Building? || c.BuildFailed? || c.Spawning?) && c.cont.InStart? then c.cont.todo
    else []
  }

  /** The trigger `Start` or the listener is busy with. */
  function Busy(c: Control): seq<Trigger> {
    if c.Acquiring? || c.Building? || c.BuildFailed? then [c.trigger] else []
  }

  ghost predicate StartIsFresh(s: Instance) {
    var todo := Todo(s.control);
    && DistinctIDs(todo)
    && (forall i | 0 <= i < |todo| ::
          && (forall k: nat | 0 <= k < |s.workers| :: s.workers[k].ID() != todo[i].internalID)
          && (forall t | t in Busy(s.control) :: t.internalID != todo[i].internalID))
  }

  /** The listener has taken an update and not yet cancelled the worker it replaces. */
  predicate BeforeCancel(c: Control) { c.Taken? || c.LookedUp? || c.Skipped? }

  /** A live worker runs the configuration last taken for its id, unless the
      listener is at this moment about to replace it. */
  ghost predicate Agrees(s: Instance, k: nat)
    requires k < |s.workers|
  {
    var x := s.workers[k].ID();
    && x in s.last
    && (s.workers[k].trigger == s.last[x] || (BeforeCancel(s.control) && s.control.update.internalID == x))
  }

  ghost predicate ConfigAgrees(s: Instance) {
    && (forall k: nat | Live(s, k) :: Agrees(s, k))
    && (forall t | t in Busy(s.control) :: t.internalID in s.last && s.last[t.internalID] == t)
    && (BeforeCancel(s.control) ==>
          s.control.update.internalID in s.last && s.last[s.control.update.internalID] == s.control.update)
  }

  ghost predicate MapAgrees(s: Instance) {
    OwnedAgree(s) && LiveIsOwned(s) && OnlyMadeIsInserted(s) && ControlAgrees(s) && StartIsFresh(s)
  }

  ghost predicate Inv(s: Instance) { MapAgrees(s) && ConfigAgrees(s) }

  lemma InitHolds(todo: seq<Trigger>, capacity: nat)
    ensures Inv(InitInstance(todo, capacity)) <==> DistinctIDs(todo)
  {
    var s := InitInstance(todo, capacity);
    assert StartIsFresh(s) ==> DistinctIDs(Todo(s.control));
  }

  /** Workers only fade: none comes to life, and none that is live leaves the map. */
  ghost predicate Fades(s: Instance, s': Instance) {
    && s'.control == s.control && s'.last == s.last && |s'.workers| == |s.workers|
    && (forall k: nat | k < |s.workers| ::
          && s'.workers[k].trigger == s.workers[k].trigger
          && (s'.workers[k].phase.Inserted? <==> s.workers[k].phase.Inserted?)
          && (Live(s', k) ==> Live(s, k)))
    && (forall x | x in s'.owned :: x in s.owned && s'.owned[x] == s.owned[x])
    && (forall x | x in s.owned && x !in s'.owned :: s.owned[x] < |s.workers| && !Live(s', s.owned[x]))
  }

  lemma FadingKeeps(s: Instance, s': Instance)
    requires Inv(s) && Fades(s, s')
    ensures Inv(s')
  {
    assert forall k: nat :: Live(s', k) ==> Live(s, k);
    forall k: nat | Live(s', k) ensures Agrees(s', k) {
      assert Agrees(s, k);
    }
  }

  lemma UndisturbedFades(s: Instance, s': Instance)
    requires Undisturbed(s, s')
    ensures Fades(s, s')
  {
  }

  lemma TouchingOneFades(s: Instance, s': Instance, k: nat)
    requires TouchesOne(s, s', k)
    ensures Fades(s, s')
  {
  }

  lemma StillLiveStart(s: Instance, step: StartStep)
    requires StartEnabled(s, step)
    ensures forall k: nat :: Live(StartStepNext(s, step), k) ==> Live(s, k)
  {
  }

  lemma StartKeepsMap(s: Instance, step: StartStep)
    requires MapAgrees(s) && StartEnabled(s, step)
    ensures MapAgrees(StartStepNext(s, step))
  {
    StillLiveStart(s, step);
    var s' := StartStepNext(s, step);
    assert s'.workers == s.workers && s'.owned == s.owned;
  }

  lemma StartKeepsConfig(s: Instance, step: StartStep)
    requires Inv(s) && StartEnabled(s, step)
    ensures ConfigAgrees(StartStepNext(s, step))
  {
    if step.StartNext? {
      NextKeepsConfig(s);
    } else {
      var s' := StartStepNext(s, step);
      assert s'.workers == s.workers && s'.last == s.last && s'.ctxDone == s.ctxDone;
      forall k: nat | Live(s', k) ensures Agrees(s', k) {
        assert Live(s, k) && Agrees(s, k);
      }
    }
  }

  lemma NextKeepsConfig(s: Instance)
    requires Inv(s) && StartEnabled(s, StartNext)
    ensures ConfigAgrees(StartStepNext(s, StartNext))
  {
    var s', t := StartStepNext(s, StartNext), s.control.todo[0];
    assert s'.workers == s.workers && s'.last == s.last[t.internalID := t] && s'.ctxDone == s.ctxDone;
    forall k: nat | Live(s', k) ensures Agrees(s', k) {
      assert Live(s, k) && Agrees(s, k);
    }
  }

  lemma StillLiveListener(s: Instance, step: ListenerStep)
    requires ListenerEnabled(s, step)
    ensures forall k: nat :: Live(ListenerNext(s, step), k) ==> Live(s, k)
  {
  }

  lemma ListenerKeepsMap(s: Instance, step: ListenerStep)
    requires MapAgrees(s) && ListenerEnabled(s, step)
    ensures MapAgrees(ListenerNext(s, step))
  {
    if step.CancelOld? {
      CancelKeepsMap(s);
    } else if step.SkipWrite? {
      SkipKeepsMap(s);
    } else {
      StillLiveListener(s, step);
      assert ListenerNext(s, step).workers == s.workers;
    }
  }

  lemma SkipKeepsMap(s: Instance)
    requires MapAgrees(s) && ListenerEnabled(s, SkipWrite)
    ensures MapAgrees(ListenerNext(s, SkipWrite))
  {
    StillLiveListener(s, SkipWrite);
  }

  lemma CancelKeepsMap(s: Instance)
    requires MapAgrees(s) && ListenerEnabled(s, CancelOld)
    ensures MapAgrees(ListenerNext(s, CancelOld))
  {
    StillLiveListener(s, CancelOld);
  }

  /** The listener writes a flag or cancels, and takes nothing. */
  lemma WriteKeepsConfig(s: Instance, step: ListenerStep)
    requires Inv(s) && ListenerEnabled(s, step) && (step.SkipWrite? || step.CancelOld?)
    ensures ConfigAgrees(ListenerNext(s, step))
  {
    StillLiveListener(s, step);
    var s' := ListenerNext(s, step);
    forall k: nat | Live(s', k) ensures Agrees(s', k) {
      assert Live(s, k) && Agrees(s, k);
    }
  }

  lemma TakeKeepsConfig(s: Instance)
    requires Inv(s) && ListenerEnabled(s, Take)
    ensures ConfigAgrees(ListenerNext(s, Take))
  {
    StillLiveListener(s, Take);
    var s' := ListenerNext(s, Take);
    forall k: nat | Live(s', k) ensures Agrees(s', k) {
      assert Live(s, k) && Agrees(s, k);
    }
  }

  lemma ListenerKeepsConfig(s: Instance, step: ListenerStep)
    requires Inv(s) && ListenerEnabled(s, step)
    ensures ConfigAgrees(ListenerNext(s, step))
  {
    if step.Take? {
      TakeKeepsConfig(s);
    } else if step.SkipWrite? || step.CancelOld? {
      WriteKeepsConfig(s, step);
    } else {
      var s' := ListenerNext(s, step);
      assert s'.workers == s.workers && s'.last == s.last && s'.ctxDone == s.ctxDone;
      forall k: nat | Live(s', k) ensures Agrees(s', k) {
        assert Live(s, k) && Agrees(s, k);
      }
    }
  }

  lemma StillLiveLaunch(s: Instance, step: LaunchStep)
    requires MapAgrees(s) && LaunchEnabled(s, step)
    ensures forall k: nat :: Live(LaunchNext(s, step), k) ==> Live(s, k) || (step.Insert? && k == |s.workers|)
  {
  }

  lemma LaunchKeepsMap(s: Instance, step: LaunchStep)
    requires MapAgrees(s) && LaunchEnabled(s, step)
    ensures MapAgrees(LaunchNext(s, step))
  {
    StillLiveLaunch(s, step);
  }

  lemma LaunchKeepsConfig(s: Instance, step: LaunchStep)
    requires Inv(s) && LaunchEnabled(s, step)
    ensures ConfigAgrees(LaunchNext(s, step))
  {
    StillLiveLaunch(s, step);
    var s' := LaunchNext(s, step);
    forall k: nat | Live(s', k) && k < |s.workers| ensures Agrees(s', k) {
      assert Agrees(s, k);
    }
  }

  lemma StepKeeps(s: Instance, step: Step)
    requires Inv(s) && Enabled(s, step)
    ensures Inv(Next(s, step))
  {
    match step {
      case Start(a) => StartKeepsMap(s, a); StartKeepsConfig(s, a);
      case Listener(l) => ListenerKeepsMap(s, l); ListenerKeepsConfig(s, l);
      case Launch(l) => LaunchKeepsMap(s, l); LaunchKeepsConfig(s, l);
      case OfWorker(k, w) => WorkerTouchesOne(s, k, w); TouchingOneFades(s, WorkerNext(s, k, w), k);
        FadingKeeps(s, WorkerNext(s, k, w));
      case _ => OutsideUndisturbed(s, step); UndisturbedFades(s, Next(s, step)); FadingKeeps(s, Next(s, step));
    }
  }

  /** A call of Shutdown cancels exactly the workers in the map, and so every live one. */
  lemma ShutdownCancels(s: Instance, step: Step)
    requires LiveIsOwned(s) && (step.ShutdownCall? || step.Watch?) && Enabled(s, step)
    ensures var s' := Next(s, step);
            && |s'.workers| == |s.workers|
            && (forall k: nat | k < |s.workers| ::
                  s'.workers[k] == s.workers[k].(cancelled := s.workers[k].cancelled || InMap(s, k)))
            && forall k: nat :: !Live(s', k)
  {
    forall k: nat ensures !Live(Next(s, step), k) {
      if Live(s, k) {
        assert s.owned[s.workers[k].ID()] == k;
      }
    }
  }

  lemma ListenerRevivesNone(s: Instance, step: ListenerStep)
    requires ListenerEnabled(s, step)
    ensures |ListenerNext(s, step).workers| == |s.workers|
    ensures forall k: nat | Live(ListenerNext(s, step), k) :: Live(s, k)
  {
    if !step.SkipWrite? && !step.CancelOld? {
      assert ListenerNext(s, step).workers == s.workers;
    }
  }

  lemma LaunchRevivesNone(s: Instance, step: LaunchStep)
    requires MapAgrees(s) && LaunchEnabled(s, step)
    ensures |LaunchNext(s, step).workers| >= |s.workers|
    ensures forall k: nat | k < |s.workers| && Live(LaunchNext(s, step), k) :: Live(s, k)
  {
    StillLiveLaunch(s, step);
  }

  /** Once cancelled, or past its exit, a worker stays so. */
  lemma StepRevivesNone(s: Instance, step: Step)
    requires MapAgrees(s) && Enabled(s, step)
    ensures |Next(s, step).workers| >= |s.workers|
    ensures forall k: nat | k < |s.workers| && Live(Next(s, step), k) :: Live(s, k)
  {
    match step
    case Start(a) =>
    case Listener(l) => ListenerRevivesNone(s, l);
    case Launch(l) => LaunchRevivesNone(s, l);
    case OfWorker(k, w) => WorkerTouchesOne(s, k, w); TouchingOneFades(s, WorkerNext(s, k, w), k);
    case _ => OutsideUndisturbed(s, step); UndisturbedFades(s, Next(s, step));
  }
}
