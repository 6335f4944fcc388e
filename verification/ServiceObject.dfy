/** The service as the object it is: a map of worker objects, a wait group and
    channels, changed in place.  Every atomic section is one step of the
    protocol on the object's view, so any interleaving of sections is a run of
    the protocol; the functions that string sections together are shown to take
    exactly the protocol's steps in order.  Line numbers are those of
    internal/trigger/service.go. */
module ServiceObject {
  import opened AdvisoryLock
  import opened Protocol
  import opened Walks

  /** What becomes of the calls that can fail: to the lock server, to build the
      subscriber, and to release. */
  datatype Fate = Fate(acquires: bool, builds: bool, frees: bool, freesAgain: bool)

  function OutcomeOf(t: LockTable, i: Session, x: int, works: bool): AcquireOutcome {
    if !works then AcquireError else if FreeFor(t, i, x) then Got else Busy
  }

  /** The steps of startTriggerWorkerInternal. */
  function LaunchSteps(t: LockTable, i: Session, x: int, alreadyLocked: bool, fate: Fate): seq<Step> {
    var outcome := OutcomeOf(t, i, x, fate.acquires);
    (if alreadyLocked then [] else [Launch(Acquire(outcome))])
    + if !alreadyLocked && !outcome.Got? then []
      else if fate.builds then [Launch(Insert), Launch(Spawn)]
      else [Launch(BuildError), Launch(FailRelease(fate.frees))]
  }

  /** The lock table after it, for a lock not yet held for the trigger's sake. */
  function LaunchTable(t: LockTable, i: Session, x: int, fate: Fate): LockTable {
    if !fate.acquires || !FreeFor(t, i, x) then t
    else if fate.builds || !fate.frees then TryLock(t, i, x).1
    else Unlock(TryLock(t, i, x).1, i, x)
  }

  /** Every trigger of the snapshot starts, or is left to whoever holds its lock. */
  predicate AllStart(t: LockTable, i: Session, snapshot: seq<Trigger>, fates: seq<Fate>)
    requires |snapshot| <= |fates|
    decreases |snapshot|
  {
    snapshot == [] || (
      var x := snapshot[0].internalID;
      LaunchSucceeds(t, i, x, false, fates[0]) && AllStart(LaunchTable(t, i, x, fates[0]), i, snapshot[1..], fates[1..]))
  }

  predicate LaunchSucceeds(t: LockTable, i: Session, x: int, alreadyLocked: bool, fate: Fate) {
    if alreadyLocked then fate.builds else fate.acquires && (FreeFor(t, i, x) ==> fate.builds)
  }

  /** What a session does to its own locks does not change what is free for it. */
  lemma LaunchLeavesFree(t: LockTable, i: Session, x: int, fate: Fate, y: int)
    ensures FreeFor(LaunchTable(t, i, x, fate), i, y) <==> FreeFor(t, i, y)
  {
    var t' := LaunchTable(t, i, x, fate);
    FreeForMeansUnheld(t, i, y);
    FreeForMeansUnheld(t', i, y);
    assert forall o: Session | o != i :: Held(t', o, y) == Held(t, o, y);
  }

  /** A snapshot starts exactly when every lock call works and every trigger whose lock
      no other session held at the outset can be built; a lock held elsewhere is no failure. */
  lemma {:induction false} StartExactly(t: LockTable, i: Session, snapshot: seq<Trigger>, fates: seq<Fate>)
    requires |snapshot| <= |fates|
    ensures AllStart(t, i, snapshot, fates) <==>
              forall n | 0 <= n < |snapshot| ::
                fates[n].acquires && (FreeFor(t, i, snapshot[n].internalID) ==> fates[n].builds)
    decreases |snapshot|
  {
    if snapshot != [] {
      var rest, after := snapshot[1..], LaunchTable(t, i, snapshot[0].internalID, fates[0]);
      StartExactly(after, i, rest, fates[1..]);
      forall n | 0 <= n < |rest|
        ensures snapshot[n + 1] == rest[n] && fates[n + 1] == fates[1..][n]
        ensures FreeFor(after, i, rest[n].internalID) <==> FreeFor(t, i, snapshot[n + 1].internalID)
      {
        LaunchLeavesFree(t, i, snapshot[0].internalID, fates[0], rest[n].internalID);
      }
    }
  }

  function BeforeLaunch(trigger: Trigger, cont: Cont): Control {
    if cont.Restart? then Building(trigger, cont) else Acquiring(trigger, cont)
  }

  function AfterLaunch(trigger: Trigger, cont: Cont, ok: bool): Control {
    if !ok && cont.Restart? then Rereleasing(trigger) else Resume(cont, !ok)
  }

  /** The steps of the listener that replace a worker it has looked up. */
  function RestartSteps(t: LockTable, i: Session, x: int, fate: Fate): seq<Step> {
    var steps := [Listener(SkipWrite), Listener(CancelOld)] + LaunchSteps(t, i, x, true, fate);
    if fate.builds then steps else steps + [Listener(Rerelease(fate.freesAgain))]
  }

  function StartOneSteps(t: LockTable, i: Session, x: int, fate: Fate): seq<Step> {
    [Start(StartNext)] + LaunchSteps(t, i, x, false, fate)
  }

  /** The steps of Start for a snapshot: it stops at the first trigger that fails. */
  function StartSteps(t: LockTable, i: Session, snapshot: seq<Trigger>, fates: seq<Fate>): seq<Step>
    requires |snapshot| <= |fates|
    decreases |snapshot|
  {
    if snapshot == [] then [] else
      var x := snapshot[0].internalID;
      StartOneSteps(t, i, x, fates[0])
      + if LaunchSucceeds(t, i, x, false, fates[0])
        then StartSteps(LaunchTable(t, i, x, fates[0]), i, snapshot[1..], fates[1..]) else []
  }

  lemma StartsOneMore(t: LockTable, i: Session, snapshot: seq<Trigger>, fates: seq<Fate>, n: nat, x: int, before: seq<Step>)
    requires n < |snapshot| <= |fates| && x == snapshot[n].internalID
    ensures snapshot[n..][0] == snapshot[n] && snapshot[n..][1..] == snapshot[n + 1..]
    ensures AllStart(t, i, snapshot[n..], fates[n..])
        <==> LaunchSucceeds(t, i, x, false, fates[n])
             && AllStart(LaunchTable(t, i, x, fates[n]), i, snapshot[n + 1..], fates[n + 1..])
    ensures before + StartSteps(t, i, snapshot[n..], fates[n..])
         == (before + StartOneSteps(t, i, x, fates[n]))
            + if LaunchSucceeds(t, i, x, false, fates[n])
              then StartSteps(LaunchTable(t, i, x, fates[n]), i, snapshot[n + 1..], fates[n + 1..]) else []
  {
    assert snapshot[n..][1..] == snapshot[n + 1..] && fates[n..][1..] == fates[n + 1..];
    StepsAssociative(before, StartOneSteps(t, i, x, fates[n]),
                     if LaunchSucceeds(t, i, x, false, fates[n])
                     then StartSteps(LaunchTable(t, i, x, fates[n]), i, snapshot[n + 1..], fates[n + 1..]) else []);
  }

  lemma StepsAssociative(a: seq<Step>, b: seq<Step>, c: seq<Step>)
    ensures a + (b + c) == (a + b) + c
  {
  }

  function LookupSteps(): seq<Step> { [Listener(Take), Listener(Lookup)] }

  /** The steps of the listener for one update. */
  function UpdateSteps(t: LockTable, i: Session, x: int, owned: bool, fate: Fate): seq<Step> {
    LookupSteps() + ActSteps(t, i, x, owned, fate)
  }

  function ActSteps(t: LockTable, i: Session, x: int, owned: bool, fate: Fate): seq<Step> {
    if owned then RestartSteps(t, i, x, fate) else LaunchSteps(t, i, x, false, fate)
  }

  /** The listener's steps for as many updates as there are fates, from the state
      it starts in: each as that state and the lock table have become by then. */
  function ListenerSteps(s: Instance, t: LockTable, i: Session, fates: seq<Fate>): seq<Step>
    decreases |fates|
  {
    if fates == [] then [] else
      var n := |fates| - 1;
      var before := ListenerSteps(s, t, i, fates[..n]);
      if !CanWalk(s, t, i, before) then before else
        var (m, u) := Along(s, t, i, before);
        if m.updates == [] then before else
          var x := m.updates[0].internalID;
          before + UpdateSteps(u, i, x, x in m.owned, fates[n])
  }

  lemma ListenerStepsOneMore(s: Instance, t: LockTable, i: Session, fates: seq<Fate>, n: nat, m: Instance, u: LockTable, x: int)
    requires n < |fates| && Walk(s, t, i, ListenerSteps(s, t, i, fates[..n]), m, u)
    requires m.updates != [] && x == m.updates[0].internalID
    ensures ListenerSteps(s, t, i, fates[..n + 1])
         == ListenerSteps(s, t, i, fates[..n]) + UpdateSteps(u, i, x, x in m.owned, fates[n])
  {
    assert fates[..n + 1][..n] == fates[..n];
  }

  lemma LookingUp(s0: Instance, t: LockTable, i: nat, s1: Instance, s2: Instance)
    requires Takes(s0, Listener(Take), s1) && Takes(s1, Listener(Lookup), s2)
    ensures Walk(s0, t, i, LookupSteps(), s2, t)
  {
    OneStep(s0, t, i, Listener(Take));
    Further(s0, t, i, [Listener(Take)], s1, t, Listener(Lookup), s2, t);
    assert [Listener(Take)] + [Listener(Lookup)] == LookupSteps();
  }

  lemma Replacing(s0: Instance, t: LockTable, i: nat, s1: Instance, s2: Instance)
    requires Takes(s0, Listener(SkipWrite), s1) && Takes(s1, Listener(CancelOld), s2)
    ensures Walk(s0, t, i, [Listener(SkipWrite), Listener(CancelOld)], s2, t)
  {
    OneStep(s0, t, i, Listener(SkipWrite));
    Further(s0, t, i, [Listener(SkipWrite)], s1, t, Listener(CancelOld), s2, t);
    assert [Listener(SkipWrite)] + [Listener(CancelOld)] == [Listener(SkipWrite), Listener(CancelOld)];
  }

  lemma GivingUp(s0: Instance, t: LockTable, i: nat, s1: Instance, frees: bool, s2: Instance, t': LockTable)
    requires Takes(s0, Launch(BuildError), s1) && Takes(s1, Launch(FailRelease(frees)), s2)
    requires t' == Serve(t, i, Free(s1.control.trigger.internalID, frees))
    ensures Walk(s0, t, i, [Launch(BuildError), Launch(FailRelease(frees))], s2, t')
  {
    OneStep(s0, t, i, Launch(BuildError));
    Further(s0, t, i, [Launch(BuildError)], s1, t, Launch(FailRelease(frees)), s2, t');
    assert [Launch(BuildError)] + [Launch(FailRelease(frees))] == [Launch(BuildError), Launch(FailRelease(frees))];
  }

  function CleanUpSteps(k: nat, skip: bool, frees: bool): seq<Step> {
    (if skip then [OfWorker(k, SkipRead)]
     else [OfWorker(k, SkipRead), OfWorker(k, GuardedDelete), OfWorker(k, Release(frees))])
    + [OfWorker(k, Done)]
  }

  lemma DeletingAndReleasing(s0: Instance, t: LockTable, i: nat, k: nat, s1: Instance, s2: Instance, frees: bool,
                             s3: Instance, t': LockTable)
    requires Takes(s0, OfWorker(k, SkipRead), s1) && Takes(s1, OfWorker(k, GuardedDelete), s2)
    requires Takes(s2, OfWorker(k, Release(frees)), s3)
    requires t' == Serve(t, i, Free(s2.workers[k].ID(), frees))
    ensures Walk(s0, t, i, [OfWorker(k, SkipRead), OfWorker(k, GuardedDelete), OfWorker(k, Release(frees))], s3, t')
  {
    var steps := [OfWorker(k, SkipRead)];
    OneStep(s0, t, i, OfWorker(k, SkipRead));
    Further(s0, t, i, steps, s1, t, OfWorker(k, GuardedDelete), s2, t);
    steps := steps + [OfWorker(k, GuardedDelete)];
    Further(s0, t, i, steps, s2, t, OfWorker(k, Release(frees)), s3, t');
    assert steps + [OfWorker(k, Release(frees))]
        == [OfWorker(k, SkipRead), OfWorker(k, GuardedDelete), OfWorker(k, Release(frees))];
  }

  predicate OnlyListener(steps: seq<Step>) { forall step | step in steps :: step.Listener? || step.Launch? }

  predicate OnlyStart(steps: seq<Step>) { forall step | step in steps :: step.Start? || step.Launch? }

  lemma UpdateByListener(t: LockTable, i: Session, x: int, owned: bool, fate: Fate, before: seq<Step>)
    requires OnlyListener(before)
    ensures OnlyListener(before + UpdateSteps(t, i, x, owned, fate))
  {
  }

  lemma NextTrigger(s: Instance, t: LockTable, i: nat, s': Instance, todo: seq<Trigger>)
    requires s.control == Starting(todo) && todo != []
    requires s' == s.(control := Acquiring(todo[0], InStart(todo[1..])), last := s.last[todo[0].internalID := todo[0]])
    ensures Walk(s, t, i, [Start(StartNext)], s', t)
  {
    OneStep(s, t, i, Start(StartNext));
  }

  lemma StartListening(s: Instance, t: LockTable, i: nat, s': Instance, ok: bool)
    requires s.control == Starting([])
    requires s' == if ok then s.(control := Idle, wg := s.wg + 1, watching := true) else s.(control := StartFailed)
    ensures Walk(s, t, i, [Start(StartListener(ok))], s', t)
  {
    OneStep(s, t, i, Start(StartListener(ok)));
  }

  predicate OnlyWorker(k: nat, steps: seq<Step>) {
    forall step | step in steps :: step.OfWorker? && step.k == k
  }

  /** One more step of worker `k`, which asks nothing of the lock server. */
  lemma WorkerStepped(s0: Instance, t: LockTable, i: nat, before: seq<Step>, s: Instance, k: nat, step: WorkerStep, s': Instance)
    requires OnlyWorker(k, before) && Walk(s0, t, i, before, s, t)
    requires Takes(s, OfWorker(k, step), s') && !step.Release?
    ensures OnlyWorker(k, before + [OfWorker(k, step)]) && Walk(s0, t, i, before + [OfWorker(k, step)], s', t)
  {
    Further(s0, t, i, before, s, t, OfWorker(k, step), s', t);
  }

  function Min(a: nat, b: nat): nat { if a < b then a else b }

  /** How many of the events waiting go out: all there is room for; but a worker
      that may quit sends on at every second of its turns only, the one before
      being spent on receiving, and quits when the turns are up. */
  function Passed(waiting: nat, room: nat, quits: bool, turns: nat): nat {
    if quits then Min(Min(waiting, room), turns / 2) else Min(waiting, room)
  }

  /** What keeps the worker from sending one more. */
  lemma PassedUp(n: nat, waiting: nat, room: nat, quits: bool, turns: nat)
    requires n <= Passed(waiting, room, quits, turns)
    ensures n == Passed(waiting, room, quits, turns) <==> n == waiting || n == room || (quits && turns <= 2 * n + 1)
  {
  }

  /** The events as worker `k` puts them on the channel. */
  function Tagged(k: nat, es: seq<Event>): seq<Sent> {
    seq(|es|, j requires 0 <= j < |es| => Sent(k, es[j]))
  }

  lemma TaggedOne(k: nat, es: seq<Event>, n: nat, sent: seq<Event>, channel: seq<Sent>)
    requires n < |es|
    ensures sent + es[..n] + [es[n]] == sent + es[..n + 1] && es[n..][1..] == es[n + 1..] && es[n..][0] == es[n]
    ensures channel + Tagged(k, es[..n]) + [Sent(k, es[n])] == channel + Tagged(k, es[..n + 1])
  {
    assert Tagged(k, es[..n]) + [Sent(k, es[n])] == Tagged(k, es[..n + 1]);
  }

  /** What one turn of the forwarding loop comes to. */
  datatype Turn = Forwarded | Exits | Waits

  lemma SomeMember<T>(s: set<T>) returns (x: T)
    requires s != {}
    ensures x in s
  {
    x :| x in s;
  }

  class TriggerWorker {
    const trigger: Trigger
    const number: nat
    var cancelled: bool
    var skipCleanup: bool
    var phase: Phase
    var inbox: seq<Event>
    var sourceClosed: bool
    ghost var received: seq<Event>
    ghost var sent: seq<Event>

    ghost function State(): Worker
      reads this
    {
      Worker(trigger, cancelled, skipCleanup, phase, inbox, sourceClosed, received, sent)
    }

    constructor (trigger: Trigger, number: nat)
      ensures this.trigger == trigger && this.number == number && State() == NewWorker(trigger)
    {
      this.trigger, this.number := trigger, number;
      cancelled, skipCleanup, phase, inbox, sourceClosed := false, false, Inserted, [], false;
      received, sent := [], [];
    }
  }

  class Service {
    var ownedTriggers: map<int, TriggerWorker>
    var ctxDone: bool
    var updates: seq<Trigger>
    var updatesClosed: bool
    var wg: int
    const capacity: nat
    var eventCh: seq<Sent>
    var closed: bool
    var waiting: nat // callers inside Shutdown's wg.Wait
    var watching: bool // the goroutine of `Start` waits for the context
    var started: seq<TriggerWorker> // a history: every worker by number
    ghost var consumed: seq<Sent>
    ghost var last: map<int, Trigger>
    ghost var leaked: multiset<int>

    ghost predicate Valid()
      reads this
    {
      && (forall k: nat | k < |started| :: started[k].number == k)
      && (forall x | x in ownedTriggers :: Known(ownedTriggers[x]))
    }

    ghost predicate Known(w: TriggerWorker)
      reads this
    {
      w.number < |started| && started[w.number] == w
    }

    ghost function Workers(): seq<Worker>
      reads this, started
    {
      seq(|started|, k requires 0 <= k < |started| reads this, started => started[k].State())
    }

    ghost function Owned(): map<int, nat>
      reads this
    {
      map x | x in ownedTriggers :: ownedTriggers[x].number
    }

    ghost function View(control: Control): Instance
      reads this, started
    {
      Instance(Owned(), Workers(), control, ctxDone, updates, updatesClosed, wg, capacity, eventCh, consumed, closed,
               waiting, watching, last, leaked)
    }

    constructor (capacity: nat, ghost snapshot: seq<Trigger>)
      ensures Valid() && View(Starting(snapshot)) == InitInstance(snapshot, capacity)
    {
      this.capacity := capacity;
      ownedTriggers, ctxDone, updates, updatesClosed, wg, eventCh, closed, waiting, watching := map[], false, [], false, 0, [], false, 0, false;
      started, consumed, last, leaked := [], [], map[], multiset{};
    }

    /** Only worker `w` of those started has changed. */
    twostate lemma OneChanged(w: TriggerWorker)
      requires old(Valid()) && Known(w) && started == old(started)
      requires forall v | v in started && v != w :: v.State() == old(v.State())
      ensures Workers() == old(Workers())[w.number := w.State()]
    {
    }

    // ---- sections of the listener

    method TakeUpdate() returns (u: Trigger)
      requires Valid() && updates != []
      modifies this`updates, this`last
      ensures Valid() && u == old(updates[0])
      ensures Takes(old(View(Idle)), Listener(Take), View(Taken(u)))
    {
      u := updates[0];
      updates := updates[1..];
      last := last[u.internalID := u];
    }

    method Lookup(u: Trigger) returns (w: TriggerWorker?)
      requires Valid()
      ensures w != null ==> Known(w) && Takes(View(Taken(u)), Listener(Protocol.Lookup), View(LookedUp(u, w.number)))
      ensures w == null ==> Takes(View(Taken(u)), Listener(Protocol.Lookup), View(Acquiring(u, NewUpdate)))
      ensures w != null <==> u.internalID in ownedTriggers
    {
      w := if u.internalID in ownedTriggers then ownedTriggers[u.internalID] else null;
    }

    method SetSkipCleanup(w: TriggerWorker, ghost u: Trigger)
      requires Valid() && Known(w)
      modifies w`skipCleanup
      ensures Takes(old(View(LookedUp(u, w.number))), Listener(SkipWrite), View(Skipped(u, w.number)))
    {
      w.skipCleanup := true;
      OneChanged(w);
    }

    method CancelReplaced(w: TriggerWorker, ghost u: Trigger)
      requires Valid() && Known(w)
      modifies w`cancelled
      ensures Takes(old(View(Skipped(u, w.number))), Listener(CancelOld), View(Building(u, Restart)))
    {
      w.cancelled := true;
      OneChanged(w);
    }

    // ---- sections of startTriggerWorkerInternal

    method InsertWorker(trigger: Trigger, ghost cont: Cont) returns (w: TriggerWorker)
      requires Valid()
      modifies this`ownedTriggers, this`started
      ensures Valid() && fresh(w) && Known(w) && started == old(started) + [w]
      ensures Takes(old(View(Building(trigger, cont))), Launch(Insert), View(Spawning(w.number, cont)))
    {
      w := new TriggerWorker(trigger, |started|);
      ownedTriggers := ownedTriggers[trigger.internalID := w];
      started := started + [w];
      assert Workers() == old(Workers()) + [NewWorker(trigger)];
      assert Owned() == old(Owned())[trigger.internalID := w.number];
    }

    method SpawnWorker(w: TriggerWorker, ghost cont: Cont)
      requires Valid() && Known(w)
      modifies this`wg, w`phase
      ensures Valid()
      ensures Takes(old(View(Spawning(w.number, cont))), Launch(Spawn), View(Resume(cont, false)))
    {
      wg := wg + 1;
      w.phase := Subscribing;
      OneChanged(w);
    }

    method GiveUpLock(server: LockServer, i: Session, trigger: Trigger, frees: bool, ghost cont: Cont)
      requires Valid()
      modifies this`leaked, server
      ensures Valid() && GivenUp(old(server.table), old(leaked), i, trigger.internalID, frees, server.table)
      ensures Takes(old(View(BuildFailed(trigger, cont))), Launch(FailRelease(frees)), View(AfterLaunch(trigger, cont, false)))
    {
      if frees {
        server.Release(i, trigger.internalID);
      } else {
        leaked := leaked + multiset{trigger.internalID};
      }
    }

    // ---- sections of the worker, whatever the listener is doing

    method ReadSkip(w: TriggerWorker, ghost c: Control) returns (skip: bool)
      requires Valid() && Known(w) && w.phase.Exiting?
      modifies w`phase
      ensures skip == w.skipCleanup && w.phase == if skip then Finishing else Deleting
      ensures Takes(old(View(c)), OfWorker(w.number, SkipRead), View(c))
    {
      skip := w.skipCleanup;
      w.phase := if skip then Finishing else Deleting;
      OneChanged(w);
    }

    method DeleteIfCurrent(w: TriggerWorker, ghost c: Control)
      requires Valid() && Known(w) && w.phase.Deleting?
      modifies this`ownedTriggers, w`phase
      ensures Valid() && w.phase.Releasing?
      ensures Takes(old(View(c)), OfWorker(w.number, GuardedDelete), View(c))
    {
      var x := w.trigger.internalID;
      if x in ownedTriggers && ownedTriggers[x] == w {
        ownedTriggers := ownedTriggers - {x};
        assert Owned() == old(Owned()) - {x};
      }
      w.phase := Releasing;
      OneChanged(w);
    }

    method ReleaseLock(w: TriggerWorker, server: LockServer, i: Session, frees: bool, ghost c: Control)
      requires Valid() && Known(w) && w.phase.Releasing?
      modifies w`phase, this`leaked, server
      ensures Valid() && w.phase.Finishing?
      ensures Takes(old(View(c)), OfWorker(w.number, Protocol.Release(frees)), View(c))
      ensures GivenUp(old(server.table), old(leaked), i, w.trigger.internalID, frees, server.table)
    {
      if frees {
        server.Release(i, w.trigger.internalID);
      } else {
        leaked := leaked + multiset{w.trigger.internalID};
      }
      w.phase := Finishing;
      OneChanged(w);
    }

    method WorkerDone(w: TriggerWorker, ghost c: Control)
      requires Valid() && Known(w) && w.phase.Finishing?
      modifies this`wg, w`phase
      ensures Valid() && w.phase.Finished?
      ensures Takes(old(View(c)), OfWorker(w.number, Done), View(c))
    {
      wg := wg - 1;
      w.phase := Finished;
      OneChanged(w);
    }

    method EndSubscribe(w: TriggerWorker, ok: bool, ghost c: Control)
      requires Valid() && Known(w) && w.phase.Subscribing?
      modifies w`phase, w`sourceClosed
      ensures w.phase == (if ok then Forwarding else Exiting) && w.sourceClosed == (old(w.sourceClosed) || !ok)
      ensures Takes(old(View(c)), OfWorker(w.number, Protocol.Subscribe(ok)), View(c))
    {
      w.phase := if ok then Forwarding else Exiting;
      w.sourceClosed := w.sourceClosed || !ok;
      OneChanged(w);
    }

    method ReceiveEvent(w: TriggerWorker, ghost c: Control) returns (e: Event)
      requires Valid() && Known(w) && w.phase.Forwarding? && w.inbox != []
      modifies w`phase, w`inbox, w`received
      ensures e == old(w.inbox[0]) && w.phase == Sending(e) && w.inbox == old(w.inbox[1..])
      ensures Takes(old(View(c)), OfWorker(w.number, Receive), View(c))
    {
      e := w.inbox[0];
      w.inbox := w.inbox[1..];
      w.received := w.received + [e];
      w.phase := Sending(e);
      OneChanged(w);
    }

    method SendEvent(w: TriggerWorker, e: Event, ghost c: Control)
      requires Valid() && Known(w) && w.phase == Sending(e) && !closed && |eventCh| < capacity
      modifies this`eventCh, w`phase, w`sent
      ensures Valid() && w.phase.Forwarding? && w.sent == old(w.sent) + [e]
      ensures Takes(old(View(c)), OfWorker(w.number, Send), View(c))
    {
      eventCh := eventCh + [Sent(w.number, e)];
      w.sent := w.sent + [e];
      w.phase := Forwarding;
      OneChanged(w);
    }

    /** A consumer that is already waiting takes the event past the empty buffer. */
    method HandEventOver(w: TriggerWorker, e: Event, ghost c: Control)
      requires Valid() && Known(w) && w.phase == Sending(e) && !closed && eventCh == []
      modifies this`consumed, w`phase, w`sent
      ensures Valid() && w.phase.Forwarding? && w.sent == old(w.sent) + [e]
      ensures Takes(old(View(c)), OfWorker(w.number, Handoff), View(c))
    {
      consumed := consumed + [Sent(w.number, e)];
      w.sent := w.sent + [e];
      w.phase := Forwarding;
      OneChanged(w);
    }

    method ExitOnClose(w: TriggerWorker, ghost c: Control)
      requires Valid() && Known(w) && w.phase.Forwarding? && w.sourceClosed && w.inbox == []
      modifies w`phase
      ensures w.phase.Exiting?
      ensures Takes(old(View(c)), OfWorker(w.number, ExitClosed), View(c))
    {
      w.phase := Exiting;
      OneChanged(w);
    }

    method ExitOnCancel(w: TriggerWorker, ghost c: Control)
      requires Valid() && Known(w) && (w.phase.Forwarding? || w.phase.Sending?) && (w.cancelled || ctxDone)
      modifies w`phase
      ensures w.phase.Exiting?
      ensures Takes(old(View(c)), OfWorker(w.number, ExitCancelled), View(c))
    {
      w.phase := Exiting;
      OneChanged(w);
    }

    // ---- Shutdown

    /** Cancels every owned worker under the mutex and starts waiting. */
    method BeginShutdown(ghost c: Control)
      requires Valid() && !c.InStartCall()
      modifies this`waiting, started`cancelled
      ensures Valid()
      ensures Takes(old(View(c)), ShutdownCall, View(c))
    {
      EnterShutdown(c);
    }

    method EnterShutdown(ghost c: Control)
      requires Valid()
      modifies this`waiting, started`cancelled
      ensures Valid()
      ensures var s := old(View(c)); View(c) == s.(workers := CancelOwned(s), shutdowns := s.shutdowns + 1)
    {
      CancelOwnedWorkers();
      CancelledAll(c);
      waiting := waiting + 1;
    }

    method CancelOwnedWorkers()
      requires Valid()
      modifies started`cancelled
      ensures forall w | w in started :: w.cancelled == (old(w.cancelled) || Entry(w, ownedTriggers.Keys))
    {
      var left: set<int> := ownedTriggers.Keys;
      while left != {}
        invariant left <= ownedTriggers.Keys
        invariant forall w | w in started ::
            w.cancelled == (old(w.cancelled) || Entry(w, ownedTriggers.Keys - left))
      {
        ghost var some := SomeMember(left);
        var x :| x in left;
        ownedTriggers[x].cancelled := true;
        left := left - {x};
      }
      assert ownedTriggers.Keys - left == ownedTriggers.Keys;
    }

    /** `w` is in the map under one of these ids. */
    ghost predicate Entry(w: TriggerWorker, ids: set<int>)
      reads this`ownedTriggers
    {
      exists x :: x in ids && x in ownedTriggers && ownedTriggers[x] == w
    }

    lemma EntryByNumber(k: nat)
      requires Valid() && k < |started|
      ensures (exists x | x in Owned() :: Owned()[x] == k) <==> Entry(started[k], ownedTriggers.Keys)
    {
      if Entry(started[k], ownedTriggers.Keys) {
        var x :| x in ownedTriggers && ownedTriggers[x] == started[k];
        assert Owned()[x] == k;
      }
      if x :| x in Owned() && Owned()[x] == k {
        assert ownedTriggers[x] == started[k];
      }
    }

    /** Every owned worker has been cancelled and nothing else has changed. */
    twostate lemma CancelledAll(c: Control)
      requires old(Valid()) && Valid() && started == old(started) && ownedTriggers == old(ownedTriggers)
      requires forall w | w in started :: w.State() == old(w.State()).(cancelled := w.cancelled)
      requires forall w | w in started :: w.cancelled == (old(w.cancelled) || Entry(w, ownedTriggers.Keys))
      ensures Workers() == CancelOwned(old(View(c)))
    {
      forall k: nat | k < |started|
        ensures Workers()[k] == CancelOwned(old(View(c)))[k]
      {
        EntryByNumber(k);
        assert started[k] in started;
      }
    }

    /** Line 167 to 170: the context is done, and the goroutine of `Start` calls Shutdown. */
    method ContextDone(ghost c: Control)
      requires Valid() && watching && ctxDone
      modifies this`waiting, this`watching, started`cancelled
      ensures Valid()
      ensures Takes(old(View(c)), Watch, View(c))
    {
      EnterShutdown(c);
      watching := false;
    }

    /** Past wg.Wait: close the channel, the first time only. */
    method EndShutdown(ghost c: Control)
      requires Valid() && waiting > 0 && wg == 0
      modifies this`waiting, this`closed
      ensures Valid()
      ensures Takes(old(View(c)), ShutdownReturn, View(c))
    {
      waiting := waiting - 1;
      if !closed {
        closed := true;
      }
    }

    // ---- whole functions, run without interruption

    /** Line 255 to 262. */
    method TryAcquire(server: LockServer, i: Session, trigger: Trigger, works: bool, ghost cont: Cont)
      returns (acquired: bool)
      requires Valid()
      modifies server
      ensures acquired <==> works && FreeFor(old(server.table), i, trigger.internalID)
      ensures server.table == if works then TryLock(old(server.table), i, trigger.internalID).1 else old(server.table)
      ensures Walk(View(Acquiring(trigger, cont)), old(server.table), i,
                   [Launch(Acquire(OutcomeOf(old(server.table), i, trigger.internalID, works)))],
                   View(if acquired then Building(trigger, cont) else Resume(cont, !works)), server.table)
    {
      ghost var step := Launch(Acquire(OutcomeOf(server.table, i, trigger.internalID, works)));
      acquired := false;
      if works {
        acquired := server.Acquire(i, trigger.internalID);
      }
      OneStep(View(Acquiring(trigger, cont)), old(server.table), i, step);
    }

    /** Line 267 or 274. */
    method ReleaseAfterFailure(server: LockServer, i: Session, trigger: Trigger, frees: bool, ghost cont: Cont)
      requires Valid()
      modifies this`leaked, server
      ensures Valid()
      ensures server.table == if frees then Unlock(old(server.table), i, trigger.internalID) else old(server.table)
      ensures Walk(old(View(Building(trigger, cont))), old(server.table), i, [Launch(BuildError), Launch(FailRelease(frees))],
                   View(AfterLaunch(trigger, cont, false)), server.table)
    {
      ghost var s0, s1, t0 := View(Building(trigger, cont)), View(BuildFailed(trigger, cont)), server.table;
      GiveUpLock(server, i, trigger, frees, cont);
      GivingUp(s0, t0, i, s1, frees, View(AfterLaunch(trigger, cont, false)), server.table);
    }

    /** Line 280 to 291. */
    method LaunchWorker(trigger: Trigger, ghost cont: Cont)
      requires Valid()
      modifies this`ownedTriggers, this`started, this`wg
      ensures Valid() && Grown(old(started))
      ensures forall t: LockTable, i: Session ::
                Walk(old(View(Building(trigger, cont))), t, i, [Launch(Insert), Launch(Spawn)], View(Resume(cont, false)), t)
    {
      ghost var s0 := View(Building(trigger, cont));
      var w := InsertWorker(trigger, cont);
      ghost var s1 := View(Spawning(w.number, cont));
      SpawnWorker(w, cont);
      ghost var s2 := View(Resume(cont, false));
      forall t: LockTable, i: Session
        ensures Walk(s0, t, i, [Launch(Insert), Launch(Spawn)], s2, t)
      {
        OneStep(s0, t, i, Launch(Insert));
        Further(s0, t, i, [Launch(Insert)], s1, t, Launch(Spawn), s2, t);
        assert [Launch(Insert)] + [Launch(Spawn)] == [Launch(Insert), Launch(Spawn)];
      }
    }

    method StartTriggerWorkerInternal(server: LockServer, i: Session, trigger: Trigger, alreadyLocked: bool, fate: Fate,
                                      ghost cont: Cont) returns (ok: bool)
      requires Valid() && (alreadyLocked <==> cont.Restart?)
      modifies this`ownedTriggers, this`started, this`wg, this`leaked, server
      ensures Valid() && Grown(old(started))
      ensures ok == LaunchSucceeds(old(server.table), i, trigger.internalID, alreadyLocked, fate)
      ensures !alreadyLocked ==> server.table == LaunchTable(old(server.table), i, trigger.internalID, fate)
      ensures Walk(old(View(BeforeLaunch(trigger, cont))), old(server.table), i,
                   LaunchSteps(old(server.table), i, trigger.internalID, alreadyLocked, fate),
                   View(AfterLaunch(trigger, cont, ok)), server.table)
    {
      ghost var x, s0, t0 := trigger.internalID, View(BeforeLaunch(trigger, cont)), server.table;
      ghost var first: seq<Step> := [];
      if !alreadyLocked {
        var acquired := TryAcquire(server, i, trigger, fate.acquires, cont);
        first := [Launch(Acquire(OutcomeOf(t0, i, x, fate.acquires)))];
        if !acquired {
          assert LaunchSteps(t0, i, x, alreadyLocked, fate) == first;
          return fate.acquires;
        }
      }
      ghost var s1, t1 := View(Building(trigger, cont)), server.table;
      assert Walk(s0, t0, i, first, s1, t1);
      if !fate.builds {
        ReleaseAfterFailure(server, i, trigger, fate.frees, cont);
        Join(s0, t0, i, first, s1, t1, [Launch(BuildError), Launch(FailRelease(fate.frees))],
             View(AfterLaunch(trigger, cont, false)), server.table);
        return false;
      }
      LaunchWorker(trigger, cont);
      Join(s0, t0, i, first, s1, t1, [Launch(Insert), Launch(Spawn)], View(Resume(cont, false)), t1);
      return true;
    }

    /** Workers have only been added, and those are new. */
    twostate predicate Grown(before: seq<TriggerWorker>)
      reads this
    {
      before <= started && forall k | |before| <= k < |started| :: fresh(started[k])
    }

    /** Line 213 to 216. */
    method RetireWorker(w: TriggerWorker, ghost u: Trigger, ghost t: LockTable, ghost i: Session)
      requires Valid() && Known(w)
      modifies w`skipCleanup, w`cancelled
      ensures Walk(old(View(LookedUp(u, w.number))), t, i, [Listener(SkipWrite), Listener(CancelOld)],
                   View(Building(u, Restart)), t)
    {
      ghost var s0 := View(LookedUp(u, w.number));
      SetSkipCleanup(w, u);
      ghost var s1 := View(Skipped(u, w.number));
      CancelReplaced(w, u);
      Replacing(s0, t, i, s1, View(Building(u, Restart)));
    }

    /** Line 222. */
    method ReleaseAgain(server: LockServer, i: Session, u: Trigger, frees: bool)
      requires Valid()
      modifies server
      ensures Takes(View(Rereleasing(u)), Listener(Rerelease(frees)), View(Idle))
      ensures server.table == Serve(old(server.table), i, Free(u.internalID, frees))
    {
      if frees {
        server.Release(i, u.internalID);
      }
    }

    /** Line 210 to 225. */
    method RestartWorker(w: TriggerWorker, server: LockServer, i: Session, u: Trigger, fate: Fate)
      requires Valid() && Known(w)
      modifies this`ownedTriggers, this`started, this`wg, this`leaked, server, w`skipCleanup, w`cancelled
      ensures Valid() && Grown(old(started))
      ensures Walk(old(View(LookedUp(u, w.number))), old(server.table), i,
                   RestartSteps(old(server.table), i, u.internalID, fate), View(Idle), server.table)
    {
      ghost var s0, t0 := View(LookedUp(u, w.number)), server.table;
      RetireWorker(w, u, t0, i);
      ghost var s1 := View(Building(u, Restart));
      var ok := StartTriggerWorkerInternal(server, i, u, true, fate, Restart);
      ghost var launch := LaunchSteps(t0, i, u.internalID, true, fate);
      ghost var s2, t2 := View(AfterLaunch(u, Restart, ok)), server.table;
      Join(s0, t0, i, [Listener(SkipWrite), Listener(CancelOld)], s1, t0, launch, s2, t2);
      if !ok {
        ReleaseAgain(server, i, u, fate.freesAgain);
        Further(s0, t0, i, [Listener(SkipWrite), Listener(CancelOld)] + launch, s2, t2,
                Listener(Rerelease(fate.freesAgain)), View(Idle), server.table);
      }
    }

    /** The worker a new update is for, if there is one, line 202 to 208. */
    method NextUpdate(ghost t: LockTable, ghost i: Session) returns (u: Trigger, w: TriggerWorker?)
      requires Valid() && updates != []
      modifies this`updates, this`last
      ensures Valid() && u == old(updates[0]) && updates == old(updates[1..])
      ensures (w != null <==> u.internalID in ownedTriggers) && (w != null ==> Known(w))
      ensures Walk(old(View(Idle)), t, i, LookupSteps(), View(AfterLookup(u, w)), t)
    {
      ghost var s0 := View(Idle);
      u := TakeUpdate();
      ghost var s1 := View(Taken(u));
      w := Lookup(u);
      LookingUp(s0, t, i, s1, View(AfterLookup(u, w)));
    }

    ghost function AfterLookup(u: Trigger, w: TriggerWorker?): Control {
      if w != null then LookedUp(u, w.number) else Acquiring(u, NewUpdate)
    }

    /** Line 210 to 231: replace the worker, or start one for a new trigger. */
    method ActOn(w: TriggerWorker?, server: LockServer, i: Session, u: Trigger, fate: Fate)
      requires Valid() && (w != null ==> Known(w))
      modifies this`ownedTriggers, this`started, this`wg, this`leaked
      modifies server, started`skipCleanup, started`cancelled
      ensures Valid() && Grown(old(started))
      ensures Walk(old(View(AfterLookup(u, w))), old(server.table), i,
                   ActSteps(old(server.table), i, u.internalID, w != null, fate), View(Idle), server.table)
    {
      if w != null {
        RestartWorker(w, server, i, u, fate);
      } else {
        var _ := StartTriggerWorkerInternal(server, i, u, false, fate, NewUpdate);
      }
    }

    /** One turn of the listener's loop, line 201 to 231. */
    method HandleUpdate(server: LockServer, i: Session, fate: Fate)
      requires Valid() && updates != []
      modifies this`ownedTriggers, this`started, this`wg, this`leaked, this`updates, this`last
      modifies server, started`skipCleanup, started`cancelled
      ensures Valid() && Grown(old(started)) && updates == old(updates[1..])
      ensures Walk(old(View(Idle)), old(server.table), i,
                   UpdateSteps(old(server.table), i, old(updates[0].internalID), old(updates[0].internalID in ownedTriggers), fate),
                   View(Idle), server.table)
    {
      ghost var s0, t0 := View(Idle), server.table;
      var u, w := NextUpdate(t0, i);
      ghost var s1 := View(AfterLookup(u, w));
      ActOn(w, server, i, u, fate);
      Join(s0, t0, i, LookupSteps(), s1, t0, ActSteps(t0, i, u.internalID, w != null, fate), View(Idle), server.table);
    }

    /** The deferred function and wg.Done, line 292 to 317. */
    method CleanUp(w: TriggerWorker, server: LockServer, i: Session, frees: bool, ghost c: Control)
      requires Valid() && Known(w) && w.phase.Exiting?
      modifies this`ownedTriggers, this`leaked, this`wg, w`phase, server
      ensures Valid() && w.phase.Finished?
      ensures if w.skipCleanup then server.table == old(server.table) && leaked == old(leaked)
              else GivenUp(old(server.table), old(leaked), i, w.trigger.internalID, frees, server.table)
      ensures Walk(old(View(c)), old(server.table), i, CleanUpSteps(w.number, w.skipCleanup, frees), View(c), server.table)
    {
      ghost var k, s0, t0 := w.number, View(c), server.table;
      var skip := ReadSkip(w, c);
      ghost var s1 := View(c);
      OneStep(s0, t0, i, OfWorker(k, SkipRead));
      ghost var steps := [OfWorker(k, SkipRead)];
      if !skip {
        DeleteIfCurrent(w, c);
        ghost var s2 := View(c);
        ReleaseLock(w, server, i, frees, c);
        DeletingAndReleasing(s0, t0, i, k, s1, s2, frees, View(c), server.table);
        steps := [OfWorker(k, SkipRead), OfWorker(k, GuardedDelete), OfWorker(k, Protocol.Release(frees))];
      }
      ghost var s3 := View(c);
      WorkerDone(w, c);
      Further(s0, t0, i, steps, s3, server.table, OfWorker(k, Done), View(c), server.table);
    }

    /** One turn of the loop of line 327 to 348.  `first` and `second` say whether
        the outer and the inner select go for the channel when both ways are open. */
    method ForwardOne(w: TriggerWorker, first: bool, second: bool, ghost c: Control, ghost t: LockTable, ghost i: Session,
                      ghost s0: Instance, ghost before: seq<Step>) returns (turn: Turn, ghost steps: seq<Step>)
      requires Valid() && Known(w) && w.phase.Forwarding? && !closed
      requires OnlyWorker(w.number, before) && Walk(s0, t, i, before, View(c), t)
      modifies this`eventCh, w`phase, w`inbox, w`received, w`sent
      ensures Valid() && AfterTurn(w, turn)
      ensures turn.Forwarded? <==> old(w.inbox) != [] && |old(eventCh)| < capacity && (Quits(w) ==> first && second)
      ensures turn.Exits? <==> !turn.Forwarded? && (Quits(w) || (old(w.inbox) == [] && w.sourceClosed))
      ensures if turn.Forwarded? then
                && w.inbox == old(w.inbox)[1..] && w.sent == old(w.sent) + [old(w.inbox)[0]]
                && eventCh == old(eventCh) + [Sent(w.number, old(w.inbox)[0])]
              else
                && w.sent == old(w.sent) && eventCh == old(eventCh) && (old(w.inbox) == [] ==> w.inbox == [])
      ensures OnlyWorker(w.number, steps) && Walk(s0, t, i, steps, View(c), t)
    {
      turn, steps := ReceiveOrQuit(w, first, c, t, i, s0, before);
      if turn.Forwarded? {
        turn, steps := SendOrQuit(w, second, c, t, i, s0, steps);
      }
    }

    /** The outer select, line 328 to 346. */
    method ReceiveOrQuit(w: TriggerWorker, goes: bool, ghost c: Control, ghost t: LockTable, ghost i: Session,
                         ghost s0: Instance, ghost before: seq<Step>) returns (turn: Turn, ghost steps: seq<Step>)
      requires Valid() && Known(w) && w.phase.Forwarding?
      requires OnlyWorker(w.number, before) && Walk(s0, t, i, before, View(c), t)
      modifies w`phase, w`inbox, w`received
      ensures if turn.Forwarded? then w.phase.Sending? && old(w.inbox) == [w.phase.event] + w.inbox
              else AfterTurn(w, turn) && w.inbox == old(w.inbox)
      ensures turn.Forwarded? <==> old(w.inbox) != [] && (Quits(w) ==> goes)
      ensures turn.Exits? <==> !turn.Forwarded? && (Quits(w) || w.sourceClosed)
      ensures OnlyWorker(w.number, steps) && Walk(s0, t, i, steps, View(c), t)
    {
      ghost var s1 := View(c);
      var cancelled := w.cancelled || ctxDone;
      ghost var step;
      if cancelled && (!goes || (w.inbox == [] && !w.sourceClosed)) {
        ExitOnCancel(w, c);
        turn, step := Exits, ExitCancelled;
      } else if w.inbox != [] {
        var _ := ReceiveEvent(w, c);
        turn, step := Forwarded, Receive;
      } else if w.sourceClosed {
        ExitOnClose(w, c);
        turn, step := Exits, ExitClosed;
      } else {
        return Waits, before;
      }
      steps := before + [OfWorker(w.number, step)];
      WorkerStepped(s0, t, i, before, s1, w.number, step, View(c));
    }

    /** The inner select, line 334 to 342. */
    method SendOrQuit(w: TriggerWorker, goes: bool, ghost c: Control, ghost t: LockTable, ghost i: Session,
                         ghost s0: Instance, ghost before: seq<Step>) returns (turn: Turn, ghost steps: seq<Step>)
      requires Valid() && Known(w) && w.phase.Sending? && !closed
      requires OnlyWorker(w.number, before) && Walk(s0, t, i, before, View(c), t)
      modifies this`eventCh, w`phase, w`sent
      ensures Valid() && AfterTurn(w, turn)
      ensures turn.Forwarded? <==> |old(eventCh)| < capacity && (Quits(w) ==> goes)
      ensures turn.Exits? <==> !turn.Forwarded? && Quits(w)
      ensures w.sent == if turn.Forwarded? then old(w.sent + [w.phase.event]) else old(w.sent)
      ensures eventCh == if turn.Forwarded? then old(eventCh + [Sent(w.number, w.phase.event)]) else old(eventCh)
      ensures OnlyWorker(w.number, steps) && Walk(s0, t, i, steps, View(c), t)
    {
      ghost var s1 := View(c);
      var cancelled := w.cancelled || ctxDone;
      ghost var step;
      if cancelled && (!goes || |eventCh| >= capacity) {
        ExitOnCancel(w, c);
        turn, step := Exits, ExitCancelled;
      } else if |eventCh| < capacity {
        SendEvent(w, w.phase.event, c);
        turn, step := Forwarded, Send;
      } else {
        return Waits, before;
      }
      steps := before + [OfWorker(w.number, step)];
      WorkerStepped(s0, t, i, before, s1, w.number, step, View(c));
    }

    /** The worker's context is done. */
    predicate Quits(w: TriggerWorker)
      reads this`ctxDone, w`cancelled
    {
      w.cancelled || ctxDone
    }

    function Room(channel: seq<Sent>): nat { if |channel| < capacity then capacity - |channel| else 0 }

    /** Where the worker is after a turn. */
    predicate AfterTurn(w: TriggerWorker, turn: Turn)
      reads this, w
    {
      match turn
      case Forwarded => w.phase.Forwarding?
      case Exits => w.phase.Exiting?
      case Waits =>
        && !Quits(w)
        && if w.phase.Sending? then |eventCh| >= capacity
           else w.phase.Forwarding? && w.inbox == [] && !w.sourceClosed
    }

    /** What forwarding with so many turns comes to, with the inbox, the events sent
        and the channel as they were before. */
    ghost predicate PassesOn(w: TriggerWorker, turns: nat, exits: bool, es: seq<Event>, sent: seq<Event>, channel: seq<Sent>)
      reads this`eventCh, this`ctxDone, w`cancelled, w`inbox, w`sent, w`sourceClosed
    {
      var n := Passed(|es|, Room(channel), Quits(w), turns);
      && w.sent == sent + es[..n]
      && eventCh == channel + Tagged(w.number, es[..n])
      && (exits <==> Quits(w) || (n == |es| && w.sourceClosed))
      && (exits && !Quits(w) ==> w.inbox == [])
    }

    /** `n` events have gone out since then. */
    ghost predicate Passing(w: TriggerWorker, turn: Turn, turns: nat, left: nat, es: seq<Event>, sent: seq<Event>,
                            channel: seq<Sent>, n: nat)
      reads this`eventCh, this`ctxDone, w`cancelled, w`inbox, w`sent, w`sourceClosed
    {
      var all := Passed(|es|, Room(channel), Quits(w), turns);
      && n <= all
      && w.sent == sent + es[..n] && eventCh == channel + Tagged(w.number, es[..n])
      && (if turn.Forwarded? then w.inbox == es[n..] && left == if 2 * n < turns then turns - 2 * n else 0 else n == all)
      && (turn.Exits? <==> !turn.Forwarded? && (Quits(w) || (n == |es| && w.sourceClosed)))
      && (turn.Exits? && !Quits(w) ==> w.inbox == [])
    }

    /** The whole loop, until it exits or has to wait.  The first `turns` turns go
        for the channel whenever they can. */
    method Forward(w: TriggerWorker, turns: nat, ghost c: Control, ghost t: LockTable, ghost i: Session,
                   ghost s0: Instance, ghost before: seq<Step>) returns (exits: bool, ghost steps: seq<Step>)
      requires Valid() && Known(w) && w.phase.Forwarding? && !closed
      requires OnlyWorker(w.number, before) && Walk(s0, t, i, before, View(c), t)
      modifies this`eventCh, w`phase, w`inbox, w`received, w`sent
      ensures Valid() && AfterTurn(w, if exits then Exits else Waits)
      ensures PassesOn(w, turns, exits, old(w.inbox), old(w.sent), old(eventCh))
      ensures OnlyWorker(w.number, steps) && Walk(s0, t, i, steps, View(c), t)
    {
      ghost var es, sent, channel, n := w.inbox, w.sent, eventCh, 0;
      steps := before;
      var left := turns;
      var turn := Forwarded;
      while turn.Forwarded?
        invariant AfterTurn(w, turn)
        invariant Passing(w, turn, turns, left, es, sent, channel, n)
        invariant OnlyWorker(w.number, steps)
        invariant Walk(s0, t, i, steps, View(c), t)
        decreases turn.Forwarded?, |w.inbox|
      {
        turn, steps := ForwardNext(w, turns, left, c, t, i, s0, steps, es, sent, channel, n);
        left := if left >= 2 then left - 2 else 0;
        n := if turn.Forwarded? then n + 1 else n;
      }
      exits := turn.Exits?;
    }

    /** One turn after `n` events have gone out. */
    method ForwardNext(w: TriggerWorker, ghost turns: nat, left: nat, ghost c: Control, ghost t: LockTable,
                       ghost i: Session, ghost s0: Instance, ghost before: seq<Step>, ghost es: seq<Event>,
                       ghost sent: seq<Event>, ghost channel: seq<Sent>, ghost n: nat)
      returns (turn: Turn, ghost steps: seq<Step>)
      requires Valid() && Known(w) && w.phase.Forwarding? && !closed
      requires Passing(w, Forwarded, turns, left, es, sent, channel, n)
      requires OnlyWorker(w.number, before) && Walk(s0, t, i, before, View(c), t)
      modifies this`eventCh, w`phase, w`inbox, w`received, w`sent
      ensures AfterTurn(w, turn) && (turn.Forwarded? ==> |w.inbox| < |old(w.inbox)|)
      ensures Passing(w, turn, turns, if left >= 2 then left - 2 else 0, es, sent, channel, if turn.Forwarded? then n + 1 else n)
      ensures OnlyWorker(w.number, steps) && Walk(s0, t, i, steps, View(c), t)
    {
      PassedUp(n, |es|, Room(channel), Quits(w), turns);
      turn, steps := ForwardOne(w, left > 0, left > 1, c, t, i, s0, before);
      if turn.Forwarded? {
        TaggedOne(w.number, es, n, sent, channel);
      }
    }

    /** Subscribing and the loop, line 321 to 348. */
    method Work(w: TriggerWorker, subscribes: bool, turns: nat, ghost c: Control, ghost t: LockTable, ghost i: Session)
      returns (exits: bool, ghost steps: seq<Step>)
      requires Valid() && Known(w) && w.phase.Subscribing? && !closed
      modifies this`eventCh, w`phase, w`inbox, w`sourceClosed, w`received, w`sent
      ensures Valid() && AfterTurn(w, if exits then Exits else Waits)
      ensures if subscribes then PassesOn(w, turns, exits, old(w.inbox), old(w.sent), old(eventCh))
              else exits && w.sent == old(w.sent) && eventCh == old(eventCh)
      ensures OnlyWorker(w.number, steps) && Walk(old(View(c)), t, i, steps, View(c), t)
    {
      ghost var s0, step := View(c), Protocol.Subscribe(subscribes);
      EndSubscribe(w, subscribes, c);
      steps := [] + [OfWorker(w.number, step)];
      WorkerStepped(s0, t, i, [], s0, w.number, step, View(c));
      exits := true;
      if subscribes {
        exits, steps := Forward(w, turns, c, t, i, s0, steps);
      }
    }

    /** A worker's goroutine, line 291 to 349, until it ends or has to wait. */
    method RunWorker(w: TriggerWorker, server: LockServer, i: Session, subscribes: bool, turns: nat, frees: bool,
                     ghost c: Control)
      returns (ends: bool, ghost steps: seq<Step>)
      requires Valid() && Known(w) && w.phase.Subscribing? && !closed
      modifies this`eventCh, this`ownedTriggers, this`leaked, this`wg, server
      modifies w`phase, w`inbox, w`sourceClosed, w`received, w`sent
      ensures Valid() && if ends then w.phase.Finished? else AfterTurn(w, Waits)
      ensures if subscribes then PassesOn(w, turns, ends, old(w.inbox), old(w.sent), old(eventCh))
              else ends && w.sent == old(w.sent) && eventCh == old(eventCh)
      ensures subscribes && ends && !Quits(w) ==> w.sourceClosed && w.inbox == [] && w.sent == old(w.sent + w.inbox)
      ensures var x := w.trigger.internalID;
              if ends && !w.skipCleanup then GivenUp(old(server.table), old(leaked), i, x, frees, server.table)
              else server.table == old(server.table) && leaked == old(leaked)
      ensures OnlyWorker(w.number, steps) && Walk(old(View(c)), old(server.table), i, steps, View(c), server.table)
    {
      ghost var s0 := View(c);
      ends, steps := Work(w, subscribes, turns, c, server.table, i);
      if ends {
        steps := EndWorker(w, server, i, frees, c, s0, steps);
      }
    }

    /** The worker's last steps, after those it has taken. */
    method EndWorker(w: TriggerWorker, server: LockServer, i: Session, frees: bool, ghost c: Control,
                     ghost s0: Instance, ghost before: seq<Step>) returns (ghost steps: seq<Step>)
      requires Valid() && Known(w) && w.phase.Exiting?
      requires OnlyWorker(w.number, before) && Walk(s0, server.table, i, before, View(c), server.table)
      modifies this`ownedTriggers, this`leaked, this`wg, w`phase, server
      ensures Valid() && w.phase.Finished?
      ensures if w.skipCleanup then server.table == old(server.table) && leaked == old(leaked)
              else GivenUp(old(server.table), old(leaked), i, w.trigger.internalID, frees, server.table)
      ensures OnlyWorker(w.number, steps) && Walk(s0, old(server.table), i, steps, View(c), server.table)
    {
      ghost var s1, t0, more := View(c), server.table, CleanUpSteps(w.number, w.skipCleanup, frees);
      CleanUp(w, server, i, frees, c);
      Join(s0, t0, i, before, s1, t0, more, View(c), server.table);
      steps := before + more;
    }

    /** The worker's lock has been released, once, or is recorded as not released. */
    ghost predicate GivenUp(t: LockTable, was: multiset<int>, i: Session, x: int, frees: bool, t': LockTable)
      reads this`leaked
    {
      && t' == (if frees then Unlock(t, i, x) else t)
      && leaked == if frees then was else was + multiset{x}
    }

    /** One more turn after the steps taken. */
    method HandleNext(server: LockServer, i: Session, fate: Fate, ghost s0: Instance, ghost t0: LockTable,
                      ghost before: seq<Step>) returns (ghost steps: seq<Step>)
      requires Valid() && updates != []
      requires OnlyListener(before) && Walk(s0, t0, i, before, View(Idle), server.table)
      modifies this`ownedTriggers, this`started, this`wg, this`leaked, this`updates, this`last
      modifies server, started`skipCleanup, started`cancelled
      ensures Valid() && Grown(old(started)) && updates == old(updates[1..])
      ensures steps == before + UpdateSteps(old(server.table), i, old(updates[0].internalID),
                                            old(updates[0].internalID in ownedTriggers), fate)
      ensures OnlyListener(steps) && Walk(s0, t0, i, steps, View(Idle), server.table)
    {
      ghost var s1, t1, x := View(Idle), server.table, updates[0].internalID;
      ghost var owned := x in ownedTriggers;
      steps := before + UpdateSteps(t1, i, x, owned, fate);
      HandleUpdate(server, i, fate);
      Join(s0, t0, i, before, s1, t1, UpdateSteps(t1, i, x, owned, fate), View(Idle), server.table);
      UpdateByListener(t1, i, x, owned, fate, before);
    }

    /** The updates the listener takes before it stops or has to wait. */
    method HandleUpdates(server: LockServer, i: Session, fates: seq<Fate>) returns (ghost steps: seq<Step>)
      requires Valid()
      modifies this`ownedTriggers, this`started, this`wg, this`leaked, this`updates, this`last
      modifies server, started`skipCleanup, started`cancelled
      ensures Valid() && Grown(old(started))
      ensures |updates| == |old(updates)| - Min(|old(updates)|, |fates|)
      ensures steps == ListenerSteps(old(View(Idle)), old(server.table), i, fates[..Min(|old(updates)|, |fates|)])
      ensures OnlyListener(steps) && Walk(old(View(Idle)), old(server.table), i, steps, View(Idle), server.table)
    {
      ghost var s0, t0 := View(Idle), server.table;
      steps := [];
      var n := 0;
      while updates != [] && n < |fates|
        invariant Valid() && Grown(old(started)) && n <= |fates| && n + |updates| == |old(updates)|
        invariant steps == ListenerSteps(s0, t0, i, fates[..n])
        invariant OnlyListener(steps) && Walk(s0, t0, i, steps, View(Idle), server.table)
        decreases |updates|
      {
        ListenerStepsOneMore(s0, t0, i, fates, n, View(Idle), server.table, updates[0].internalID);
        steps := HandleNext(server, i, fates[n], s0, t0, steps);
        n := n + 1;
      }
    }

    /** The listener's goroutine, line 199 to 236, on the updates that are there.
        Once the context is done it may stop with updates left. */
    method Listen(server: LockServer, i: Session, fates: seq<Fate>) returns (stops: bool, ghost steps: seq<Step>)
      requires Valid() && (ctxDone || |updates| <= |fates|)
      modifies this`ownedTriggers, this`started, this`wg, this`leaked, this`updates, this`last
      modifies server, started`skipCleanup, started`cancelled
      ensures Valid() && Grown(old(started))
      ensures (stops <==> ctxDone || updatesClosed) && (!stops ==> updates == [])
      ensures OnlyListener(steps)
      ensures steps == ListenerSteps(old(View(Idle)), old(server.table), i, fates[..Min(|old(updates)|, |fates|)])
                       + if stops then [Listener(StopListening), Listener(ListenerDone)] else []
      ensures Walk(old(View(Idle)), old(server.table), i, steps, View(if stops then Stopped else Idle), server.table)
    {
      ghost var s0, t0 := View(Idle), server.table;
      steps := HandleUpdates(server, i, fates);
      stops := ctxDone || updatesClosed;
      if stops {
        ghost var s1, more := View(Idle), [Listener(StopListening), Listener(ListenerDone)];
        StopListener(server.table, i);
        Join(s0, t0, i, steps, s1, server.table, more, View(Stopped), server.table);
        steps := steps + more;
      }
    }

    /** Line 197, on return from the loop. */
    method StopListener(ghost t: LockTable, ghost i: Session)
      requires Valid() && (ctxDone || (updatesClosed && updates == []))
      modifies this`wg
      ensures Valid()
      ensures Walk(old(View(Idle)), t, i, [Listener(StopListening), Listener(ListenerDone)], View(Stopped), t)
    {
      ghost var s0, s1 := View(Idle), View(Stopping);
      OneStep(s0, t, i, Listener(StopListening));
      wg := wg - 1;
      Further(s0, t, i, [Listener(StopListening)], s1, t, Listener(ListenerDone), View(Stopped), t);
      assert [Listener(StopListening)] + [Listener(ListenerDone)] == [Listener(StopListening), Listener(ListenerDone)];
    }

    /** One turn of line 157 to 161. */
    method StartOne(server: LockServer, i: Session, trigger: Trigger, ghost todo: seq<Trigger>, fate: Fate)
      returns (ok: bool, ghost steps: seq<Step>)
      requires Valid() && todo != [] && todo[0] == trigger
      modifies this`ownedTriggers, this`started, this`wg, this`leaked, this`last, server
      ensures Valid() && Grown(old(started)) && OnlyStart(steps)
      ensures steps == StartOneSteps(old(server.table), i, trigger.internalID, fate)
      ensures ok == LaunchSucceeds(old(server.table), i, trigger.internalID, false, fate)
      ensures server.table == LaunchTable(old(server.table), i, trigger.internalID, fate)
      ensures Walk(old(View(Starting(todo))), old(server.table), i, steps, View(Resume(InStart(todo[1..]), !ok)), server.table)
    {
      ghost var s0, t0, cont := View(Starting(todo)), server.table, InStart(todo[1..]);
      last := last[trigger.internalID := trigger];
      ghost var s1 := View(Acquiring(trigger, cont));
      NextTrigger(s0, t0, i, s1, todo);
      ok := StartTriggerWorkerInternal(server, i, trigger, false, fate, cont);
      ghost var launch := LaunchSteps(t0, i, trigger.internalID, false, fate);
      Join(s0, t0, i, [Protocol.Start(StartNext)], s1, t0, launch, View(Resume(cont, !ok)), server.table);
      steps := [Protocol.Start(StartNext)] + launch;
    }

    /** Line 157 to 161: the snapshot the store has returned. */
    method StartTriggers(server: LockServer, i: Session, snapshot: seq<Trigger>, fates: seq<Fate>)
      returns (ok: bool, ghost steps: seq<Step>)
      requires Valid() && |snapshot| <= |fates|
      modifies this`ownedTriggers, this`started, this`wg, this`leaked, this`last, server
      ensures Valid() && Grown(old(started)) && OnlyStart(steps)
      ensures ok == AllStart(old(server.table), i, snapshot, fates)
      ensures steps == StartSteps(old(server.table), i, snapshot, fates)
      ensures Walk(old(View(Starting(snapshot))), old(server.table), i, steps,
                   View(if ok then Starting([]) else StartFailed), server.table)
    {
      ghost var s0, t0 := View(Starting(snapshot)), server.table;
      steps := [];
      assert snapshot[0..] == snapshot && fates[0..] == fates;
      for n := 0 to |snapshot|
        invariant Valid() && Grown(old(started))
        invariant AllStart(server.table, i, snapshot[n..], fates[n..]) == AllStart(t0, i, snapshot, fates)
        invariant steps + StartSteps(server.table, i, snapshot[n..], fates[n..]) == StartSteps(t0, i, snapshot, fates)
        invariant OnlyStart(steps) && Walk(s0, t0, i, steps, View(Starting(snapshot[n..])), server.table)
      {
        StartsOneMore(server.table, i, snapshot, fates, n, snapshot[n].internalID, steps);
        ghost var s1, t1, more := View(Starting(snapshot[n..])), server.table, [];
        ok, more := StartOne(server, i, snapshot[n], snapshot[n..], fates[n]);
        Join(s0, t0, i, steps, s1, t1, more, View(Resume(InStart(snapshot[n + 1..]), !ok)), server.table);
        steps := steps + more;
        if !ok {
          return;
        }
      }
      ok := true;
    }

    /** Start, line 157 to 172; `subscribes` says whether the store accepts the subscription. */
    method Start(server: LockServer, i: Session, snapshot: seq<Trigger>, fates: seq<Fate>, subscribes: bool)
      returns (ok: bool, ghost steps: seq<Step>)
      requires Valid() && |snapshot| <= |fates|
      modifies this`ownedTriggers, this`started, this`wg, this`leaked, this`last, this`watching, server
      ensures Valid() && Grown(old(started)) && OnlyStart(steps)
      ensures ok == (AllStart(old(server.table), i, snapshot, fates) && subscribes)
      ensures steps == StartSteps(old(server.table), i, snapshot, fates)
                       + if AllStart(old(server.table), i, snapshot, fates) then [Protocol.Start(Protocol.StartListener(subscribes))] else []
      ensures Walk(old(View(Starting(snapshot))), old(server.table), i, steps,
                   View(if ok then Idle else StartFailed), server.table)
    {
      ghost var s0, t0 := View(Starting(snapshot)), server.table;
      ok, steps := StartTriggers(server, i, snapshot, fates);
      if ok {
        ghost var s1 := View(Starting([]));
        ok := StartListener(subscribes, server.table, i);
        ghost var more := [Protocol.Start(Protocol.StartListener(ok))];
        Join(s0, t0, i, steps, s1, server.table, more, View(if ok then Idle else StartFailed), server.table);
        steps := steps + more;
      }
    }

    /** Line 163 to 170: the listener, and the goroutine that waits for the context. */
    method StartListener(subscribes: bool, ghost t: LockTable, ghost i: Session) returns (ok: bool)
      requires Valid()
      modifies this`wg, this`watching
      ensures Valid() && ok == subscribes
      ensures Walk(old(View(Starting([]))), t, i, [Protocol.Start(Protocol.StartListener(ok))],
                   View(if ok then Idle else StartFailed), t)
    {
      ghost var s := View(Starting([]));
      if subscribes {
        wg := wg + 1;
        watching := true;
      }
      ok := subscribes;
      StartListening(s, t, i, View(if ok then Idle else StartFailed), ok);
    }
  }
}
