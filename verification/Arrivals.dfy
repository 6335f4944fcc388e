/** What comes in from outside is dealt with whole and in order: the events of the
    subscribers, and the configurations of the store.  No assumption is made on
    the run. */
module Arrivals {
  import opened Protocol
  import opened NoOrphans
  import opened WaitGroup
  import opened Events

  // ---- events

  /** The events that have come to worker `k`. */
  function Got(s: Instance, k: nat): seq<Event> {
    if k < |s.workers| then s.workers[k].received + s.workers[k].inbox else []
  }

  function EmittedBy(step: Step, k: nat, t: Trigger): seq<Event> {
    match step
    case Environment(Emit(j, payload)) => if j == k then [Event(t, payload)] else []
    case _ => []
  }

  function EmittedIn(m: Move, i: nat, k: nat, t: Trigger): seq<Event> {
    if m.instance == i then EmittedBy(m.step, k, t) else []
  }

  /** What a run's subscriber of worker `k` of instance `i` emits, in order. */
  function Emitted(run: seq<Move>, i: nat, k: nat, t: Trigger): seq<Event> {
    if run == [] then [] else EmittedIn(run[0], i, k, t) + Emitted(run[1..], i, k, t)
  }

  /** These events and no others came to worker `k`, after those before. */
  ghost predicate Gets(s: Instance, s': Instance, k: nat, es: seq<Event>) {
    && |s.workers| <= |s'.workers| && Got(s', k) == Got(s, k) + es
    && (k < |s.workers| ==> s'.workers[k].trigger == s.workers[k].trigger)
  }

  /** Nothing comes before subscribing; and who is past the loop without having been
      cancelled has nothing left to receive. */
  ghost predicate Drained(s: Instance) {
    forall k: nat | k < |s.workers| ::
      var w := s.workers[k];
      && (w.phase.Inserted? || w.phase.Subscribing? ==> w.inbox == [])
      && (!w.BeforeExit() && !WorkerCancelled(s, k) ==> w.sourceClosed && w.inbox == [])
  }

  lemma EnvironmentGets(s: Instance, step: EnvironmentStep, k: nat, t: Trigger)
    requires EnvironmentEnabled(s, step) && (k < |s.workers| ==> t == s.workers[k].trigger)
    ensures Gets(s, EnvironmentNext(s, step), k, EmittedBy(Environment(step), k, t))
  {
    if step.Emit? && step.k == k {
      var w, e := s.workers[k], Event(t, step.payload);
      assert w.received + (w.inbox + [e]) == (w.received + w.inbox) + [e];
    }
  }

  lemma EnvironmentDrains(s: Instance, step: EnvironmentStep)
    requires EnvironmentEnabled(s, step) && Drained(s)
    ensures Drained(EnvironmentNext(s, step))
  {
  }

  lemma StartGets(s: Instance, step: StartStep, k: nat)
    requires StartEnabled(s, step)
    ensures Gets(s, StartStepNext(s, step), k, [])
    ensures Drained(s) ==> Drained(StartStepNext(s, step))
  {
  }

  lemma ListenerGets(s: Instance, step: ListenerStep, k: nat)
    requires ListenerEnabled(s, step)
    ensures Gets(s, ListenerNext(s, step), k, [])
    ensures Drained(s) ==> Drained(ListenerNext(s, step))
  {
  }

  lemma LaunchGets(s: Instance, step: LaunchStep, k: nat)
    requires LaunchEnabled(s, step) && (s.control.Spawning? && s.control.made < |s.workers| ==> s.workers[s.control.made].phase.Inserted?)
    ensures Gets(s, LaunchNext(s, step), k, [])
    ensures Drained(s) ==> Drained(LaunchNext(s, step))
  {
  }

  lemma WorkerGets(s: Instance, j: nat, step: WorkerStep, k: nat)
    requires WorkerEnabled(s, j, step)
    ensures Gets(s, WorkerNext(s, j, step), k, [])
    ensures Drained(s) ==> Drained(WorkerNext(s, j, step))
  {
    if step.Receive? {
      var w := s.workers[j];
      assert w.received + w.inbox == (w.received + [w.inbox[0]]) + w.inbox[1..];
    }
  }

  lemma ShutdownGets(s: Instance, step: Step, k: nat)
    requires (step.ShutdownCall? || step.ShutdownReturn? || step.Watch?) && Enabled(s, step)
    ensures Gets(s, Next(s, step), k, [])
    ensures Drained(s) ==> Drained(Next(s, step))
  {
  }

  /** A step brings worker `k` the event it emits for it, and nothing else does. */
  lemma StepGets(s: Instance, step: Step, k: nat, t: Trigger)
    requires Counts(s) && Enabled(s, step) && (k < |s.workers| ==> t == s.workers[k].trigger)
    ensures Gets(s, Next(s, step), k, EmittedBy(step, k, t))
    ensures Drained(s) ==> Drained(Next(s, step))
  {
    match step
    case Environment(e) => EnvironmentGets(s, e, k, t); if Drained(s) { EnvironmentDrains(s, e); }
    case Start(a) => StartGets(s, a, k);
    case Listener(l) => ListenerGets(s, l, k);
    case Launch(l) => LaunchGets(s, l, k);
    case OfWorker(j, w) => WorkerGets(s, j, w, k);
    case _ => ShutdownGets(s, step, k);
  }

  /** As a step of the instance, or of another one. */
  lemma MoveGets(w: World, m: Move, i: nat, k: nat, t: Trigger)
    requires CanMove(w, m) && Counts(w.instances[m.instance]) && i < |w.instances|
    requires k < |w.instances[i].workers| ==> w.instances[i].workers[k].trigger == t
    ensures Gets(w.instances[i], MoveOn(w, m).instances[i], k, EmittedIn(m, i, k, t))
    ensures Drained(w.instances[i]) ==> Drained(MoveOn(w, m).instances[i])
    ensures Counts(MoveOn(w, m).instances[m.instance])
  {
    StepCounts(w.instances[m.instance], m.step);
    StepGets(w.instances[m.instance], m.step, k,
             if m.instance == i || k >= |w.instances[m.instance].workers| then t else w.instances[m.instance].workers[k].trigger);
    assert Got(w.instances[i], k) + [] == Got(w.instances[i], k);
  }

  lemma {:induction false} RunGets(w: World, run: seq<Move>, i: nat, k: nat, t: Trigger)
    requires IsRun(w, run) && forall j: nat | j < |w.instances| :: Counts(w.instances[j])
    requires i < |After(w, run).instances| && k < |After(w, run).instances[i].workers|
    requires t == After(w, run).instances[i].workers[k].trigger
    ensures |After(w, run).instances| == |w.instances|
    ensures k < |w.instances[i].workers| ==> w.instances[i].workers[k].trigger == t
    ensures Got(After(w, run).instances[i], k) == Got(w.instances[i], k) + Emitted(run, i, k, t)
    ensures Drained(w.instances[i]) ==> Drained(After(w, run).instances[i])
    decreases |run|
  {
    if run == [] {
      assert Got(w.instances[i], k) + [] == Got(w.instances[i], k);
    } else {
      StepCounts(w.instances[run[0].instance], run[0].step);
      RunGets(MoveOn(w, run[0]), run[1..], i, k, t);
      MoveGets(w, run[0], i, k, if k < |w.instances[i].workers| then w.instances[i].workers[k].trigger else t);
      GotAssociative(Got(w.instances[i], k), EmittedIn(run[0], i, k, t), Emitted(run[1..], i, k, t));
    }
  }

  lemma GotAssociative(x: seq<Event>, y: seq<Event>, z: seq<Event>)
    ensures (x + y) + z == x + (y + z)
  {
  }

  /** Over every run: the events a worker received, and then those it has not
      received yet, are exactly those its subscriber emitted, in order, each with
      the worker's configuration; what it sent is a prefix of them, and all of them
      if it came to its end without being cancelled. */
  lemma EventsArrive(w: World, run: seq<Move>, i: nat, k: nat)
    requires Initial(w) && IsRun(w, run) && i < |After(w, run).instances|
    requires k < |After(w, run).instances[i].workers|
    ensures var s := After(w, run).instances[i];
            var x := s.workers[k];
            var es := Emitted(run, i, k, x.trigger);
            && x.received + x.inbox == es
            && x.sent <= es
            && (!x.BeforeExit() && !WorkerCancelled(s, k) ==> x.sent == es)
  {
    InitialCounts(w);
    var s := After(w, run).instances[i];
    var x := s.workers[k];
    RunGets(w, run, i, k, x.trigger);
    var todo, capacity :| w.instances[i] == InitInstance(todo, capacity);
    EventConservation(w, run, i, k);
    assert [] + Emitted(run, i, k, x.trigger) == Emitted(run, i, k, x.trigger);
    assert x.received + [] == x.received;
  }

  // ---- configurations

  /** What Start and the listener have still to deal with. */
  function Ahead(s: Instance): seq<Trigger> { Todo(s.control) + s.updates }

  function ArrivesBy(step: Step): seq<Trigger> {
    match step
    case Environment(UpdateArrives(t)) => [t]
    case _ => []
  }

  function TakenBy(s: Instance, step: Step): seq<Trigger>
    requires Enabled(s, step)
  {
    match step
    case Start(StartNext) => [s.control.todo[0]]
    case Listener(Take) => [s.updates[0]]
    case _ => []
  }

  function ArrivesIn(m: Move, i: nat): seq<Trigger> { if m.instance == i then ArrivesBy(m.step) else [] }

  function TakenIn(w: World, m: Move, i: nat): seq<Trigger>
    requires CanMove(w, m)
  {
    if m.instance == i then TakenBy(w.instances[i], m.step) else []
  }

  function Arrived(run: seq<Move>, i: nat): seq<Trigger> {
    if run == [] then [] else ArrivesIn(run[0], i) + Arrived(run[1..], i)
  }

  /** The triggers that instance `i` sets about starting or restarting, in order. */
  function Taken(w: World, run: seq<Move>, i: nat): seq<Trigger>
    requires IsRun(w, run)
    decreases |run|
  {
    if run == [] then [] else TakenIn(w, run[0], i) + Taken(MoveOn(w, run[0]), run[1..], i)
  }

  /** The last configuration of each id. */
  function Lasts(m: map<int, Trigger>, ts: seq<Trigger>): map<int, Trigger>
    decreases |ts|
  {
    if ts == [] then m else Lasts(m[ts[0].internalID := ts[0]], ts[1..])
  }

  /** One step deals with what is next or leaves all as it is. */
  ghost predicate Deals(s: Instance, s': Instance, arrives: seq<Trigger>, taken: seq<Trigger>) {
    && s'.last == Lasts(s.last, taken)
    && (if s'.control.StartFailed? then taken == []
        else !s.control.StartFailed? && Ahead(s) + arrives == taken + Ahead(s'))
  }

  lemma OneLast(m: map<int, Trigger>, t: Trigger)
    ensures Lasts(m, [t]) == m[t.internalID := t]
  {
  }

  lemma EnvironmentDeals(s: Instance, step: EnvironmentStep)
    requires EnvironmentEnabled(s, step)
    ensures Deals(s, EnvironmentNext(s, step), ArrivesBy(Environment(step)), [])
  {
  }

  lemma StartDeals(s: Instance, step: StartStep)
    requires StartEnabled(s, step)
    ensures Deals(s, StartStepNext(s, step), [], TakenBy(s, Start(step)))
  {
    if step.StartNext? {
      OneLast(s.last, s.control.todo[0]);
      assert s.control.todo == [s.control.todo[0]] + s.control.todo[1..];
    }
  }

  lemma ListenerDeals(s: Instance, step: ListenerStep)
    requires ListenerEnabled(s, step)
    ensures Deals(s, ListenerNext(s, step), [], TakenBy(s, Listener(step)))
  {
    if step.Take? {
      OneLast(s.last, s.updates[0]);
    }
  }

  lemma LaunchDeals(s: Instance, step: LaunchStep)
    requires LaunchEnabled(s, step)
    ensures Deals(s, LaunchNext(s, step), [], [])
  {
  }

  lemma StepDeals(s: Instance, step: Step)
    requires Enabled(s, step)
    ensures Deals(s, Next(s, step), ArrivesBy(step), TakenBy(s, step))
  {
    match step
    case Environment(e) => EnvironmentDeals(s, e);
    case Start(a) => StartDeals(s, a);
    case Listener(l) => ListenerDeals(s, l);
    case Launch(l) => LaunchDeals(s, l);
    case OfWorker(k, w) => WorkerTouchesOne(s, k, w);
    case _ =>
  }

  lemma MoveDeals(w: World, m: Move, i: nat)
    requires CanMove(w, m) && i < |w.instances|
    ensures Deals(w.instances[i], MoveOn(w, m).instances[i], ArrivesIn(m, i), TakenIn(w, m, i))
  {
    StepDeals(w.instances[m.instance], m.step);
  }

  lemma {:induction false} LastsAppend(m: map<int, Trigger>, xs: seq<Trigger>, ys: seq<Trigger>)
    ensures Lasts(m, xs + ys) == Lasts(Lasts(m, xs), ys)
    decreases |xs|
  {
    if xs == [] {
      assert xs + ys == ys;
    } else {
      assert (xs + ys)[0] == xs[0] && (xs + ys)[1..] == xs[1..] + ys;
      LastsAppend(m[xs[0].internalID := xs[0]], xs[1..], ys);
    }
  }

  /** What is left when `taken` of `ahead` and all that arrived has been dealt with. */
  lemma OneMoreDealt(ahead: seq<Trigger>, arrives: seq<Trigger>, takes: seq<Trigger>, ahead': seq<Trigger>,
                     arrived: seq<Trigger>, taken: seq<Trigger>, rest: seq<Trigger>)
    requires ahead + arrives == takes + ahead' && taken + rest == ahead' + arrived
    ensures (takes + taken) + rest == ahead + (arrives + arrived)
  {
    assert (takes + taken) + rest == takes + (taken + rest);
    assert takes + (ahead' + arrived) == (takes + ahead') + arrived;
    assert (ahead + arrives) + arrived == ahead + (arrives + arrived);
  }

  /** `taken` comes off the front of `all`, and what remains is ahead unless Start has failed. */
  ghost predicate Leaves(s: Instance, all: seq<Trigger>, taken: seq<Trigger>) {
    taken <= all && (!s.control.StartFailed? ==> taken + Ahead(s) == all)
  }

  lemma {:induction false} RunDeals(w: World, run: seq<Move>, i: nat)
    requires IsRun(w, run) && i < |w.instances|
    ensures |After(w, run).instances| == |w.instances|
    ensures After(w, run).instances[i].last == Lasts(w.instances[i].last, Taken(w, run, i))
    ensures Leaves(After(w, run).instances[i], Ahead(w.instances[i]) + Arrived(run, i), Taken(w, run, i))
    ensures w.instances[i].control.StartFailed? ==> Taken(w, run, i) == [] && After(w, run).instances[i].control.StartFailed?
    decreases |run|
  {
    if run == [] {
      assert Ahead(w.instances[i]) + [] == [] + Ahead(w.instances[i]);
    } else {
      var v := MoveOn(w, run[0]);
      RunDeals(v, run[1..], i);
      MoveDeals(w, run[0], i);
      DealsOn(w.instances[i], v.instances[i], After(v, run[1..]).instances[i], ArrivesIn(run[0], i), TakenIn(w, run[0], i),
              Arrived(run[1..], i), Taken(v, run[1..], i));
    }
  }

  lemma DealsOn(s: Instance, s': Instance, last: Instance, arrives: seq<Trigger>, takes: seq<Trigger>,
                arrived: seq<Trigger>, taken: seq<Trigger>)
    requires Deals(s, s', arrives, takes) && last.last == Lasts(s'.last, taken)
    requires Leaves(last, Ahead(s') + arrived, taken)
    requires s'.control.StartFailed? ==> taken == [] && last.control.StartFailed?
    ensures last.last == Lasts(s.last, takes + taken)
    ensures Leaves(last, Ahead(s) + (arrives + arrived), takes + taken)
    ensures s.control.StartFailed? ==> takes + taken == [] && last.control.StartFailed?
  {
    LastsAppend(s.last, takes, taken);
    if !s'.control.StartFailed? {
      var all := Ahead(s') + arrived;
      OneMoreDealt(Ahead(s), arrives, takes, Ahead(s'), arrived, taken, all[|taken|..]);
    }
  }

  /** Over every run: Start and the listener take the triggers of the snapshot and
      then the updates, in the order in which they arrived, and all but those still
      ahead unless Start has failed; `last` is what each id was last taken with. */
  lemma ConfigurationsInOrder(w: World, run: seq<Move>, i: nat)
    requires Initial(w) && IsRun(w, run) && i < |w.instances|
    ensures |After(w, run).instances| == |w.instances|
    ensures var s := After(w, run).instances[i];
            && Leaves(s, w.instances[i].control.todo + Arrived(run, i), Taken(w, run, i))
            && s.last == Lasts(map[], Taken(w, run, i))
  {
    RunDeals(w, run, i);
    var todo, capacity :| w.instances[i] == InitInstance(todo, capacity);
    assert Ahead(w.instances[i]) == todo + [] == todo;
  }
}
