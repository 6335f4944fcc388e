/** What becomes of the events: conservation, order, and whose configuration
    they carry.  No assumption is made on the run. */
module Events {
  import opened Protocol
  import opened Sums
  import opened WaitGroup

  /** The part of `xs` that worker `k` put there, in order. */
  function Project(xs: seq<Sent>, k: nat): seq<Event> {
    if xs == [] then [] else
      var rest := Project(xs[..|xs| - 1], k);
      var last := xs[|xs| - 1];
      if last.worker == k then rest + [last.event] else rest
  }

  /** Everything that ever went onto eventCh, in order. */
  function Published(s: Instance): seq<Sent> { s.consumed + s.buffer }

  function SentCount(): Worker -> nat { (w: Worker) => |w.sent| }

  /** Each event carries the configuration its worker was started with. */
  ghost predicate AllCarry(es: seq<Event>, t: Trigger) {
    forall e | e in es :: e.trigger == t
  }

  /** A worker has sent what it received, in order, up to the one event in its
      hands; it loses that one only by being cancelled while sending. */
  ghost predicate Forwards(w: Worker, cancelled: bool) {
    && AllCarry(w.received, w.trigger) && AllCarry(w.inbox, w.trigger)
    && (w.phase.Inserted? || w.phase.Subscribing? ==> w.received == [] && w.inbox == [] && w.sent == [])
    && (if w.phase.Sending? then w.received == w.sent + [w.phase.event]
        else w.received == w.sent
             || (!w.BeforeExit() && cancelled && |w.received| == |w.sent| + 1 && w.sent == w.received[..|w.sent|]))
  }

  ghost predicate Conserved(s: Instance) {
    && (forall k: nat | k < |s.workers| :: Forwards(s.workers[k], WorkerCancelled(s, k)))
    && (forall k: nat | k < |s.workers| :: Project(Published(s), k) == s.workers[k].sent)
    && (forall p | p in Published(s) :: p.worker < |s.workers|)
    && |Published(s)| == Sum(s.workers, SentCount())
    && |s.buffer| <= s.capacity
  }

  lemma ProjectAppend(xs: seq<Sent>, x: Sent, k: nat)
    ensures Project(xs + [x], k) == if x.worker == k then Project(xs, k) + [x.event] else Project(xs, k)
  {
    assert (xs + [x])[..|xs|] == xs;
  }

  lemma {:induction false} ProjectStranger(xs: seq<Sent>, k: nat)
    requires forall p | p in xs :: p.worker != k
    ensures Project(xs, k) == []
  {
    if xs != [] {
      ProjectStranger(xs[..|xs| - 1], k);
    }
  }

  lemma InitConserved(todo: seq<Trigger>, capacity: nat)
    ensures Conserved(InitInstance(todo, capacity))
  {
  }

  /** Nothing was sent; the workers' histories stand, and new workers are blank. */
  ghost predicate Quiet(s: Instance, s': Instance) {
    && |s.workers| <= |s'.workers| <= |s.workers| + 1
    && Published(s') == Published(s) && |s'.buffer| <= |s.buffer| && s'.capacity == s.capacity
    && (forall k: nat | k < |s.workers| ::
          && s'.workers[k].sent == s.workers[k].sent
          && (Forwards(s.workers[k], WorkerCancelled(s, k)) ==> Forwards(s'.workers[k], WorkerCancelled(s', k))))
    && (forall k: nat | |s.workers| <= k < |s'.workers| :: exists t :: s'.workers[k] == NewWorker(t))
  }

  lemma QuietSums(s: Instance, s': Instance)
    requires Quiet(s, s')
    ensures Sum(s'.workers, SentCount()) == Sum(s.workers, SentCount())
  {
    var n := |s.workers|;
    SumSame(s.workers, s'.workers[..n], SentCount());
    if |s'.workers| == n {
      assert s'.workers[..n] == s'.workers;
    } else {
      assert s'.workers == s'.workers[..n] + [s'.workers[n]];
      SumAppend(s'.workers[..n], s'.workers[n], SentCount());
    }
  }

  lemma QuietConserves(s: Instance, s': Instance)
    requires Conserved(s) && Quiet(s, s')
    ensures Conserved(s')
  {
    QuietSums(s, s');
    ProjectStranger(Published(s), |s.workers|);
  }

  lemma EnvironmentQuiet(s: Instance, step: EnvironmentStep)
    requires EnvironmentEnabled(s, step)
    ensures Quiet(s, EnvironmentNext(s, step))
  {
  }

  lemma ShutdownQuiet(s: Instance, step: Step)
    requires (step.ShutdownCall? || step.ShutdownReturn? || step.Watch?) && Enabled(s, step)
    ensures Quiet(s, Next(s, step))
  {
  }

  lemma StartQuiet(s: Instance, step: StartStep)
    requires StartEnabled(s, step)
    ensures Quiet(s, StartStepNext(s, step))
  {
  }

  lemma ListenerQuiet(s: Instance, step: ListenerStep)
    requires ListenerEnabled(s, step)
    ensures Quiet(s, ListenerNext(s, step))
  {
  }

  lemma LaunchQuiet(s: Instance, step: LaunchStep)
    requires LaunchEnabled(s, step) && (s.control.Spawning? && s.control.made < |s.workers| ==> s.workers[s.control.made].phase.Inserted?)
    ensures Quiet(s, LaunchNext(s, step))
  {
  }

  lemma WorkerQuiet(s: Instance, k: nat, step: WorkerStep)
    requires WorkerEnabled(s, k, step) && !step.Send? && !step.Handoff?
    ensures Quiet(s, WorkerNext(s, k, step))
  {
  }

  /** Worker `k` put the event in its hands onto eventCh. */
  ghost predicate Sends(s: Instance, s': Instance, k: nat) {
    && k < |s.workers| && s.workers[k].phase.Sending?
    && var w := s.workers[k];
    && s'.workers == s.workers[k := w.(phase := Forwarding, sent := w.sent + [w.phase.event])]
    && Published(s') == Published(s) + [Sent(k, w.phase.event)]
    && (|s'.buffer| == |s.buffer| || |s'.buffer| <= s.capacity)
    && s'.capacity == s.capacity && s'.ctxDone == s.ctxDone
  }

  lemma SendingSends(s: Instance, k: nat, step: WorkerStep)
    requires WorkerEnabled(s, k, step) && (step.Send? || step.Handoff?)
    ensures Sends(s, WorkerNext(s, k, step), k)
  {
    var s', x := WorkerNext(s, k, step), Sent(k, s.workers[k].phase.event);
    assert Published(s') == Published(s) + [x];
  }

  lemma SendsProjects(s: Instance, s': Instance, k: nat)
    requires Conserved(s) && Sends(s, s', k)
    ensures forall j: nat | j < |s.workers| :: Project(Published(s'), j) == s'.workers[j].sent
  {
    forall j: nat | j < |s.workers| ensures Project(Published(s'), j) == s'.workers[j].sent {
      ProjectAppend(Published(s), Sent(k, s.workers[k].phase.event), j);
    }
  }

  lemma SendsConserves(s: Instance, s': Instance, k: nat)
    requires Conserved(s) && Sends(s, s', k)
    ensures Conserved(s')
  {
    SendsProjects(s, s', k);
    SumUpdate(s.workers, k, s'.workers[k], SentCount());
    forall j: nat | j < |s'.workers| ensures Forwards(s'.workers[j], WorkerCancelled(s', j)) {
      assert Forwards(s.workers[j], WorkerCancelled(s, j));
    }
  }

  lemma StepConserves(s: Instance, step: Step)
    requires Counts(s) && Conserved(s) && Enabled(s, step)
    ensures Conserved(Next(s, step))
  {
    match step {
      case Environment(e) => EnvironmentQuiet(s, e);
      case Start(a) => StartQuiet(s, a);
      case Listener(l) => ListenerQuiet(s, l);
      case Launch(l) => LaunchQuiet(s, l);
      case OfWorker(k, w) => if w.Send? || w.Handoff? { SendingSends(s, k, w); SendsConserves(s, Next(s, step), k); } else { WorkerQuiet(s, k, w); }
      case _ => ShutdownQuiet(s, step);
    }
    if !(step.OfWorker? && (step.worker.Send? || step.worker.Handoff?)) {
      QuietConserves(s, Next(s, step));
    }
  }

  lemma {:induction false} RunConserves(w: World, run: seq<Move>)
    requires IsRun(w, run)
    requires forall i: nat | i < |w.instances| :: Counts(w.instances[i]) && Conserved(w.instances[i])
    ensures |After(w, run).instances| == |w.instances|
    ensures forall i: nat | i < |w.instances| :: Conserved(After(w, run).instances[i])
    decreases |run|
  {
    if run != [] {
      StepCounts(w.instances[run[0].instance], run[0].step);
      StepConserves(w.instances[run[0].instance], run[0].step);
      RunConserves(MoveOn(w, run[0]), run[1..]);
    }
  }

  /** Over every run: what a worker sent is a prefix of what it received, short
      of it by at most the event it still holds or lost when cancelled; the
      consumer's stream followed by the buffer is an interleaving of exactly
      these prefixes; and every event carries its worker's configuration. */
  lemma EventConservation(w: World, run: seq<Move>, i: nat, k: nat)
    requires Initial(w) && IsRun(w, run) && i < |After(w, run).instances|
    requires k < |After(w, run).instances[i].workers|
    ensures var s := After(w, run).instances[i];
            var x := s.workers[k];
            && x.sent <= x.received && |x.received| <= |x.sent| + 1
            && (x.received != x.sent ==> x.phase.Sending? || (WorkerCancelled(s, k) && !x.BeforeExit()))
            && Project(s.consumed + s.buffer, k) == x.sent
            && |s.consumed| + |s.buffer| == Sum(s.workers, SentCount()) && |s.buffer| <= s.capacity
            && (forall e | e in x.sent :: e.trigger == x.trigger)
  {
    InitialCounts(w);
    forall j: nat | j < |w.instances| ensures Conserved(w.instances[j]) {
      var todo, capacity :| w.instances[j] == InitInstance(todo, capacity);
      InitConserved(todo, capacity);
    }
    RunConserves(w, run);
    var s := After(w, run).instances[i];
    assert Forwards(s.workers[k], WorkerCancelled(s, k));
  }

  /** So the events a consumer gets from a worker are, in order, a prefix of what
      that worker received. */
  lemma ConsumerSeesPrefix(w: World, run: seq<Move>, i: nat, k: nat)
    requires Initial(w) && IsRun(w, run) && i < |After(w, run).instances|
    requires k < |After(w, run).instances[i].workers|
    ensures var s := After(w, run).instances[i];
            Project(s.consumed, k) <= s.workers[k].received
  {
    var s := After(w, run).instances[i];
    EventConservation(w, run, i, k);
    ProjectConcat(s.consumed, s.buffer, k);
  }

  lemma {:induction false} ProjectConcat(xs: seq<Sent>, ys: seq<Sent>, k: nat)
    ensures Project(xs + ys, k) == Project(xs, k) + Project(ys, k)
  {
    if ys == [] {
      assert xs + ys == xs;
    } else {
      var n := |ys| - 1;
      ProjectConcat(xs, ys[..n], k);
      assert xs + ys == (xs + ys[..n]) + [ys[n]];
      ProjectAppend(xs + ys[..n], ys[n], k);
    }
  }
}
