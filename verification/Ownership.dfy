/** Lock tokens and mutual exclusion.

    A token is one release somebody still owes to the lock server.  A worker
    holds one from its insertion until it releases, unless the listener sets its
    `skipCleanup` first: then the token passes to the listener, and from there
    to the successor.  The service keeps the books exactly as long as two things
    do not happen: a hand-over that comes after the old worker has already read
    its flag, and a restart that fails. */
module Ownership {
  import opened Sums
  import opened Protocol
  import opened NoOrphans

  /** Weight 1 for each worker of `x` that owes a release. */
  function OwesFor(x: int): Worker -> nat { (w: Worker) => if w.ID() == x && w.Owes() then 1 else 0 }

  /** The token in the listener's or `Start`'s hands. */
  function InHand(c: Control, x: int): nat {
    if c.Skipped? && c.update.internalID == x then 1
    else if (c.Building? || c.BuildFailed?) && c.trigger.internalID == x then 1
    else 0
  }

  /** Everything the lock's hold count is accounted for by. */
  ghost function Tokens(s: Instance, x: int): nat {
    Sum(s.workers, OwesFor(x)) + InHand(s.control, x) + s.leaked[x]
  }

  /** The listener is replacing the worker of `x` and has set its flag. */
  predicate Handing(c: Control, x: int) {
    || (c.Skipped? && c.update.internalID == x)
    || ((c.Building? || c.BuildFailed?) && c.cont.Restart? && c.trigger.internalID == x)
    || (c.Rereleasing? && c.trigger.internalID == x)
  }

  /** An owned worker can still be replaced safely: it has neither decided about
      its cleanup for good nor been told to skip it, except during a hand-over. */
  ghost predicate HandOver(s: Instance) {
    && OwnedAgree(s)
    && (forall x | x in s.owned ::
          var w := s.workers[s.owned[x]];
          if w.skipCleanup then Handing(s.control, x) && !w.phase.Deleting?
          else w.BeforeRead() || w.phase.Deleting?)
    && (forall x | Handing(s.control, x) :: x in s.owned && s.workers[s.owned[x]].skipCleanup)
    && (s.control.LookedUp? ==>
          && s.control.prev < |s.workers|
          && s.workers[s.control.prev].ID() == s.control.update.internalID
          && (s.workers[s.control.prev].BeforeRead() ==>
                && s.control.update.internalID in s.owned
                && s.owned[s.control.update.internalID] == s.control.prev))
  }

  /** (B) is broken: the flag is set after the worker has read it. */
  predicate LateHandOver(s: Instance, step: Step) {
    step == Listener(SkipWrite) && ListenerEnabled(s, SkipWrite) && !s.workers[s.control.prev].BeforeRead()
  }

  /** (A) is broken: a restart has failed and the listener gives its lock up. */
  predicate FailedRestart(step: Step) { step.Listener? && step.listener.Rerelease? }

  predicate Bad(s: Instance, step: Step) { LateHandOver(s, step) || FailedRestart(step) }

  function Effect(call: LockCall, x: int): int {
    match call
    case NoCall => 0
    case Try(key, outcome) => if key == x && outcome.Got? then 1 else 0
    case Free(key, released) => if key == x && released then -1 else 0
  }

  lemma StartBalances(s: Instance, step: StartStep, x: int)
    requires StartEnabled(s, step)
    ensures Tokens(StartStepNext(s, step), x) == Tokens(s, x)
  {
    var s' := StartStepNext(s, step);
    assert s'.workers == s.workers && s'.leaked == s.leaked;
  }

  lemma ListenerBalances(s: Instance, step: ListenerStep, x: int)
    requires HandOver(s) && ListenerEnabled(s, step)
    ensures Tokens(ListenerNext(s, step), x) == Tokens(s, x)
              + if LateHandOver(s, Listener(step)) && s.control.update.internalID == x then 1 else 0
  {
    var s' := ListenerNext(s, step);
    if step.SkipWrite? || step.CancelOld? {
      var k := s.control.prev;
      SumUpdate(s.workers, k, s'.workers[k], OwesFor(x));
    }
  }

  lemma LaunchBalances(s: Instance, step: LaunchStep, x: int)
    requires LaunchEnabled(s, step) && (s.control.Spawning? ==> ControlAgrees(s))
    ensures Tokens(LaunchNext(s, step), x) == Tokens(s, x) + Effect(LockCallOf(s, Launch(step)), x)
  {
    if step.Insert? {
      SumAppend(s.workers, NewWorker(s.control.trigger), OwesFor(x));
    } else if step.Spawn? {
      var k := s.control.made;
      SumUpdate(s.workers, k, s.workers[k].(phase := Subscribing), OwesFor(x));
    }
  }

  /** What a worker's step does to what it owes. */
  lemma WorkerOwes(s: Instance, k: nat, step: WorkerStep)
    requires WorkerEnabled(s, k, step)
    ensures var s' := WorkerNext(s, k, step);
            && s.workers[k].Owes() == (s'.workers[k].Owes() || step.Release?)
            && (step.Release? ==> !s'.workers[k].Owes())
            && s'.leaked == if step.Release? && !step.released then s.leaked + multiset{s.workers[k].ID()} else s.leaked
  {
  }

  lemma WorkerBalances(s: Instance, k: nat, step: WorkerStep, x: int)
    requires WorkerEnabled(s, k, step)
    ensures Tokens(WorkerNext(s, k, step), x) == Tokens(s, x) + Effect(LockCallOf(s, OfWorker(k, step)), x)
  {
    WorkerOwes(s, k, step);
    WorkerTouchesOne(s, k, step);
    SumUpdate(s.workers, k, WorkerNext(s, k, step).workers[k], OwesFor(x));
  }

  lemma UndisturbedBalances(s: Instance, s': Instance, x: int)
    requires Undisturbed(s, s')
    ensures Tokens(s', x) == Tokens(s, x)
  {
    SumSame(s.workers, s'.workers, OwesFor(x));
  }

  /** Conservation: apart from the two bad steps, the tokens of an id change
      exactly as its hold count does. */
  lemma StepBalances(s: Instance, step: Step, x: int)
    requires HandOver(s) && ControlAgrees(s) && Enabled(s, step)
    ensures !Bad(s, step) ==> Tokens(Next(s, step), x) == Tokens(s, x) + Effect(LockCallOf(s, step), x)
    ensures LateHandOver(s, step) && s.control.update.internalID == x ==>
              Tokens(Next(s, step), x) == Tokens(s, x) + 1
  {
    match step {
      case Start(a) => StartBalances(s, a, x);
      case Listener(l) => ListenerBalances(s, l, x);
      case Launch(l) => LaunchBalances(s, l, x);
      case OfWorker(k, w) => WorkerBalances(s, k, w, x);
      case _ => OutsideUndisturbed(s, step); UndisturbedBalances(s, Next(s, step), x);
    }
  }

  lemma WritesHandOver(s: Instance, step: ListenerStep)
    requires HandOver(s) && ControlAgrees(s) && ListenerEnabled(s, step) && !Bad(s, Listener(step))
    requires step.SkipWrite? || step.CancelOld?
    ensures HandOver(ListenerNext(s, step))
  {
  }

  lemma ListenerHandsOver(s: Instance, step: ListenerStep)
    requires HandOver(s) && ControlAgrees(s) && ListenerEnabled(s, step) && !Bad(s, Listener(step))
    ensures HandOver(ListenerNext(s, step))
  {
    if step.SkipWrite? || step.CancelOld? {
      WritesHandOver(s, step);
    } else {
      assert ListenerNext(s, step).workers == s.workers && ListenerNext(s, step).owned == s.owned;
    }
  }

  lemma LaunchHandsOver(s: Instance, step: LaunchStep)
    requires HandOver(s) && ControlAgrees(s) && LaunchEnabled(s, step)
    ensures HandOver(LaunchNext(s, step))
  {
  }

  /** How a worker's phase moves towards its cleanup. */
  ghost predicate CleansUp(s: Instance, s': Instance, k: nat)
    requires k < |s.workers| == |s'.workers|
  {
    var w, w' := s.workers[k], s'.workers[k];
    && (w.BeforeRead() && !w'.BeforeRead() ==> if w.skipCleanup then w'.phase.Finishing? else w'.phase.Deleting?)
    && (w.phase.Deleting? ==> w'.phase.Releasing? && (w.ID() in s'.owned ==> s'.owned[w.ID()] != k))
    && (w'.BeforeRead() ==> w.BeforeRead())
    && (w'.phase.Deleting? ==> w.phase.Exiting? && !w.skipCleanup)
  }

  lemma WorkerCleansUp(s: Instance, k: nat, step: WorkerStep)
    requires WorkerEnabled(s, k, step)
    ensures CleansUp(s, WorkerNext(s, k, step), k)
  {
  }

  lemma TouchingHandsOver(s: Instance, s': Instance, k: nat)
    requires HandOver(s) && TouchesOne(s, s', k) && CleansUp(s, s', k)
    ensures HandOver(s')
  {
  }

  lemma WorkerHandsOver(s: Instance, k: nat, step: WorkerStep)
    requires HandOver(s) && WorkerEnabled(s, k, step)
    ensures HandOver(WorkerNext(s, k, step))
  {
    WorkerTouchesOne(s, k, step);
    WorkerCleansUp(s, k, step);
    TouchingHandsOver(s, WorkerNext(s, k, step), k);
  }

  lemma StartHandsOver(s: Instance, step: StartStep)
    requires HandOver(s) && StartEnabled(s, step)
    ensures HandOver(StartStepNext(s, step))
  {
    var s' := StartStepNext(s, step);
    assert s'.workers == s.workers && s'.owned == s.owned;
  }

  lemma UndisturbedHandsOver(s: Instance, s': Instance)
    requires HandOver(s) && Undisturbed(s, s')
    ensures HandOver(s')
  {
  }

  lemma StepHandsOver(s: Instance, step: Step)
    requires HandOver(s) && ControlAgrees(s) && Enabled(s, step) && !Bad(s, step)
    ensures HandOver(Next(s, step))
  {
    match step {
      case Listener(l) => ListenerHandsOver(s, l);
      case Launch(l) => LaunchHandsOver(s, l);
      case OfWorker(k, w) => WorkerHandsOver(s, k, w);
      case Start(a) => StartHandsOver(s, a);
      case _ => OutsideUndisturbed(s, step); UndisturbedHandsOver(s, Next(s, step));
    }
  }
}
