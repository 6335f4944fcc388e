/** Each of the three assumptions is needed, and not just on some run: (C) for every
    start, (A) and (B) from every sound world in which they are about to fail. */
module Necessity {
  import opened AdvisoryLock
  import opened Sums
  import opened Protocol
  import opened NoOrphans
  import opened Ownership
  import opened MutualExclusion
  import opened WaitGroup
  import opened Termination
  import opened Witnesses

  // ---- (C)

  /** Instance `i` has started the first `n` triggers of its snapshot; nobody else has moved. */
  ghost predicate Begun(w: World, v: World, i: nat, n: nat)
    requires i < |w.instances|
  {
    && |v.instances| == |w.instances| && w.instances[i].control.Starting? && n <= |w.instances[i].control.todo|
    && var todo, s := w.instances[i].control.todo, v.instances[i];
    && s.control == Starting(todo[n..]) && !s.ctxDone && |s.workers| == n
    && (forall k: nat | k < n :: s.workers[k] == NewWorker(todo[k]).(phase := Subscribing))
    && (forall e | e in v.locks :: e.0 == i)
  }

  /** One more trigger is started: its lock is free, as nobody else holds any. */
  lemma BeginNext(w: World, v: World, i: nat, n: nat) returns (v': World)
    requires i < |w.instances| && Leads(w, v, true, true) && Begun(w, v, i, n) && n < |w.instances[i].control.todo|
    ensures Leads(w, v', true, true) && Begun(w, v', i, n + 1)
  {
    var todo, s := w.instances[i].control.todo, v.instances[i];
    var t, cont := todo[n], InStart(todo[n + 1..]);
    assert todo[n..][0] == t && todo[n..][1..] == todo[n + 1..];
    var v1 := MoveOn(v, Move(i, Start(StartNext)));
    LeadsOn(w, v, true, true, i, Start(StartNext));
    assert v1.instances[i].control == Acquiring(t, cont) && v1.instances[i].workers == s.workers && !v1.instances[i].ctxDone;
    v' := AcquireAndLaunch(w, v1, i, t, cont);
    assert v'.instances[i].workers == s.workers + [NewWorker(t).(phase := Subscribing)];
  }

  lemma AcquireAndLaunch(w: World, v: World, i: nat, t: Trigger, cont: Cont) returns (v': World)
    requires i < |v.instances| && Leads(w, v, true, true) && v.instances[i].control == Acquiring(t, cont)
    requires cont.InStart? && !v.instances[i].ctxDone && forall e | e in v.locks :: e.0 == i
    ensures Leads(w, v', true, true) && |v'.instances| == |v.instances|
    ensures var s := v'.instances[i];
            && s.control == Starting(cont.todo) && !s.ctxDone
            && s.workers == v.instances[i].workers + [NewWorker(t).(phase := Subscribing)]
    ensures forall e | e in v'.locks :: e.0 == i
  {
    var step := Launch(Acquire(Got));
    assert CanMove(v, Move(i, step));
    LeadsOn(w, v, true, true, i, step);
    var v1 := MoveOn(v, Move(i, step));
    assert v1.instances[i] == v.instances[i].(control := Building(t, cont));
    v' := InsertAndSpawn(w, v1, i, t, cont);
  }

  lemma InsertAndSpawn(w: World, v: World, i: nat, t: Trigger, cont: Cont) returns (v': World)
    requires i < |v.instances| && Leads(w, v, true, true) && v.instances[i].control == Building(t, cont)
    ensures Leads(w, v', true, true) && |v'.instances| == |v.instances| && v'.locks == v.locks
    ensures var s := v'.instances[i];
            && s.control == Resume(cont, false) && s.ctxDone == v.instances[i].ctxDone
            && s.workers == v.instances[i].workers + [NewWorker(t).(phase := Subscribing)]
  {
    var n := |v.instances[i].workers|;
    LeadsOn(w, v, true, true, i, Launch(Insert));
    var v1 := MoveOn(v, Move(i, Launch(Insert)));
    assert v1.instances[i].control == Spawning(n, cont) && v1.instances[i].workers == v.instances[i].workers + [NewWorker(t)];
    LeadsOn(w, v1, true, true, i, Launch(Spawn));
    v' := MoveOn(v1, Move(i, Launch(Spawn)));
  }

  lemma {:induction false} BeginUpTo(w: World, i: nat, n: nat) returns (v: World)
    requires Initial(w) && i < |w.instances| && w.instances[i].control.Starting? && n <= |w.instances[i].control.todo|
    ensures Leads(w, v, true, true) && Begun(w, v, i, n)
  {
    if n == 0 {
      v := w;
      LeadsNowhere(w);
      var todo, capacity :| w.instances[i] == InitInstance(todo, capacity);
      assert todo[0..] == todo;
    } else {
      var u := BeginUpTo(w, i, n - 1);
      v := BeginNext(w, u, i, n - 1);
    }
  }

  lemma SubscribeOne(w: World, v: World, i: nat, k: nat) returns (v': World)
    requires i < |v.instances| && Leads(w, v, true, true) && k < |v.instances[i].workers|
    requires v.instances[i].workers[k].phase.Subscribing?
    ensures Leads(w, v', true, true) && |v'.instances| == |v.instances|
    ensures var s := v.instances[i];
            v'.instances[i] == s.(workers := s.workers[k := s.workers[k].(phase := Forwarding)])
  {
    LeadsOn(w, v, true, true, i, OfWorker(k, Subscribe(true)));
    v' := MoveOn(v, Move(i, OfWorker(k, Subscribe(true))));
  }

  /** A snapshot that repeats an id leads to two workers of it, with (A) and (B). */
  lemma RepeatedIDOverlaps(w: World, i: nat, p: nat, q: nat) returns (run: seq<Move>)
    requires Initial(w) && i < |w.instances| && w.instances[i].control.Starting?
    requires p < q < |w.instances[i].control.todo|
    requires w.instances[i].control.todo[p].internalID == w.instances[i].control.todo[q].internalID
    ensures IsRun(w, run) && GoodRun(w, run) && Overlap(After(w, run))
  {
    var todo := w.instances[i].control.todo;
    var v := BeginUpTo(w, i, |todo|);
    var v1 := SubscribeOne(w, v, i, p);
    var v2 := SubscribeOne(w, v1, i, q);
    assert Active(v2, i, p, todo[p].internalID) && Active(v2, i, q, todo[p].internalID);
    run :| IsRun(w, run) && After(w, run) == v2 && OnTime(w, run) && RestartsSucceed(run);
  }

  lemma NoOverlap(w: World, run: seq<Move>)
    requires InitialDistinct(w) && IsRun(w, run) && GoodRun(w, run)
    ensures !Overlap(After(w, run))
  {
    var v := After(w, run);
    if Overlap(v) {
      var i: nat, k: nat, j: nat, l: nat, x: int :| (i, k) != (j, l) && Active(v, i, k, x) && Active(v, j, l, x);
      AtMostOneWorker(w, run, i, k, j, l);
    }
  }

  /** (C) exactly: the runs with (A) and (B) from a start never have two active
      workers for one trigger if and only if the ids of each snapshot are distinct. */
  lemma DistinctIDsExactly(w: World)
    requires Initial(w)
    ensures (forall run | IsRun(w, run) && GoodRun(w, run) :: !Overlap(After(w, run))) <==> InitialDistinct(w)
  {
    if InitialDistinct(w) {
      forall run | IsRun(w, run) && GoodRun(w, run) ensures !Overlap(After(w, run)) {
        NoOverlap(w, run);
      }
    } else {
      var i: nat :| i < |w.instances| && !DistinctIDs(w.instances[i].control.todo);
      var todo: seq<Trigger>, capacity: nat :| w.instances[i] == InitInstance(todo, capacity);
      var p: nat, q: nat :| p < q < |todo| && todo[p].internalID == todo[q].internalID;
      var run := RepeatedIDOverlaps(w, i, p, q);
    }
  }

  // ---- what an instance can do by itself

  predicate OnlyBy(run: seq<Move>, i: nat) { forall m | m in run :: m.instance == i }

  /** Instance `i` alone can go from `w` to `v`, with no late hand-over and no failed restart. */
  ghost predicate Alone(w: World, v: World, i: nat) {
    exists run :: IsRun(w, run) && After(w, run) == v && OnlyBy(run, i) && OnTime(w, run) && RestartsSucceed(run)
  }

  lemma AloneAtFirst(w: World, i: nat)
    ensures Alone(w, w, i)
  {
    assert IsRun(w, []) && After(w, []) == w && OnTime(w, []) && OnlyBy([], i) && RestartsSucceed([]);
  }

  lemma AloneOn(w: World, v: World, i: nat, step: Step) returns (v': World)
    requires Alone(w, v, i) && CanMove(v, Move(i, step)) && !Bad(v.instances[i], step)
    ensures v' == MoveOn(v, Move(i, step)) && Alone(w, v', i)
  {
    var run :| IsRun(w, run) && After(w, run) == v && OnlyBy(run, i) && OnTime(w, run) && RestartsSucceed(run);
    var m := Move(i, step);
    v' := MoveOn(v, m);
    RunExtends(w, run, m);
    var longer := run + [m];
    assert OnlyBy(longer, i) && RestartsSucceed(longer);
    assert IsRun(w, longer) && After(w, longer) == v';
  }

  // ---- releasing what is still owed

  /** The instance is about to start a worker for `x`; nobody runs for `x`, and the
      lock is held at most as often as its old workers still owe a release. */
  ghost predicate Draining(v: World, i: nat, x: int) {
    && i < |v.instances|
    && var s := v.instances[i];
    && s.control.Building? && !s.ctxDone && s.leaked[x] == 0 && SpawnAgrees(s) && Clear(s, x)
    && Held(v.locks, i, x) <= Sum(s.workers, OwesFor(x))
  }

  lemma WayOutIsOpen(s: Instance, k: nat)
    requires k < |s.workers| && s.workers[k].Owes() && !s.workers[k].phase.Inserted? && !Live(s, k)
    ensures WorkerEnabled(s, k, WorkerWayOut(s, k)) && !Bad(s, OfWorker(k, WorkerWayOut(s, k)))
  {
  }

  /** What a way-out step leaves as it was. */
  lemma WayOutKeeps(s: Instance, k: nat, x: int)
    requires k < |s.workers| && WorkerEnabled(s, k, WorkerWayOut(s, k)) && SpawnAgrees(s) && Clear(s, x)
    ensures var s' := WorkerNext(s, k, WorkerWayOut(s, k));
            && s'.control == s.control && s'.ctxDone == s.ctxDone && s'.leaked == s.leaked
            && SpawnAgrees(s') && Clear(s', x) && |s'.workers| == |s.workers|
  {
    var step := WorkerWayOut(s, k);
    var s' := WorkerNext(s, k, step);
    WorkerTouchesOne(s, k, step);
    WorkerOwes(s, k, step);
    forall j: nat | Live(s', j) ensures s'.workers[j].ID() != x {
      assert Live(s, j);
    }
  }

  lemma WayOutPays(s: Instance, k: nat, x: int)
    requires k < |s.workers| && WorkerEnabled(s, k, WorkerWayOut(s, k)) && s.workers[k].ID() == x
    ensures var s' := WorkerNext(s, k, WorkerWayOut(s, k));
            Sum(s'.workers, OwesFor(x)) == Sum(s.workers, OwesFor(x)) - if WorkerWayOut(s, k).Release? then 1 else 0
  {
    var step := WorkerWayOut(s, k);
    WorkerTouchesOne(s, k, step);
    WorkerOwes(s, k, step);
    SumUpdate(s.workers, k, WorkerNext(s, k, step).workers[k], OwesFor(x));
  }

  lemma DrainStep(w: World, v: World, i: nat, x: int, k: nat) returns (v': World)
    requires Alone(w, v, i) && Draining(v, i, x) && k < |v.instances[i].workers|
    requires v.instances[i].workers[k].ID() == x && v.instances[i].workers[k].Owes()
    ensures Alone(w, v', i) && Draining(v', i, x) && v'.instances[i].control == v.instances[i].control
    ensures Measure(v'.instances[i]) < Measure(v.instances[i])
  {
    var s := v.instances[i];
    var step := WorkerWayOut(s, k);
    WayOutIsOpen(s, k);
    WayOutKeeps(s, k, x);
    WayOutPays(s, k, x);
    WorkerDecreases(s, k, step);
    var call := LockCallOf(s, OfWorker(k, step));
    assert call == if step.Release? then Free(x, true) else NoCall;
    v' := AloneOn(w, v, i, OfWorker(k, step));
    assert v'.instances[i] == WorkerNext(s, k, step);
  }

  lemma {:induction false} Drained(w: World, v: World, i: nat, x: int) returns (v': World)
    requires Alone(w, v, i) && Draining(v, i, x)
    ensures Alone(w, v', i) && Draining(v', i, x) && v'.instances[i].control == v.instances[i].control
    ensures Held(v'.locks, i, x) == 0
    decreases Measure(v.instances[i])
  {
    var s := v.instances[i];
    SumPositive(s.workers, OwesFor(x));
    if Sum(s.workers, OwesFor(x)) == 0 {
      v' := v;
    } else {
      var k: nat :| k < |s.workers| && OwesFor(x)(s.workers[k]) > 0;
      var u := DrainStep(w, v, i, x, k);
      v' := Drained(w, u, i, x);
    }
  }

  lemma AloneLaunches(w: World, v: World, i: nat) returns (v': World)
    requires Alone(w, v, i) && i < |v.instances| && v.instances[i].control.Building?
    ensures Alone(w, v', i) && i < |v'.instances| && v'.locks == v.locks
    ensures var s := v.instances[i];
            && v'.instances[i].ctxDone == s.ctxDone
            && v'.instances[i].workers == s.workers + [NewWorker(s.control.trigger).(phase := Subscribing)]
  {
    var s := v.instances[i];
    var t, cont, k := s.control.trigger, s.control.cont, |s.workers|;
    var v1 := AloneOn(w, v, i, Launch(Insert));
    assert v1.instances[i].control == Spawning(k, cont) && v1.instances[i].workers == s.workers + [NewWorker(t)];
    v' := AloneOn(w, v1, i, Launch(Spawn));
  }

  /** Then the successor runs, and no lock is held. */
  lemma RunsUnlocked(w: World, v: World, i: nat, x: int) returns (v': World, k: nat)
    requires Alone(w, v, i) && Draining(v, i, x) && v.instances[i].control.trigger.internalID == x
    ensures Alone(w, v', i) && Active(v', i, k, x) && Held(v'.locks, i, x) == 0
  {
    var u := Drained(w, v, i, x);
    k := |u.instances[i].workers|;
    var u' := AloneLaunches(w, u, i);
    v' := AloneOn(w, u', i, OfWorker(k, Subscribe(true)));
    assert v'.instances[i].workers[k] == u'.instances[i].workers[k].(phase := Forwarding);
  }

  lemma SpawnsAgree(s: Instance)
    requires Inv(s) && !s.control.Spawning?
    ensures SpawnAgrees(s)
  {
  }

  /** Setting the flag of a worker that no longer reads it, or cancelling one, moves no debt. */
  lemma FlagMovesNoDebt(s: Instance, step: ListenerStep, x: int)
    requires ListenerEnabled(s, step) && (step.SkipWrite? || step.CancelOld?)
    requires step.SkipWrite? ==> !s.workers[s.control.prev].BeforeRead() || s.workers[s.control.prev].skipCleanup
    ensures Sum(ListenerNext(s, step).workers, OwesFor(x)) == Sum(s.workers, OwesFor(x))
  {
    var k := s.control.prev;
    var next := ListenerNext(s, step).workers[k];
    assert next.Owes() == s.workers[k].Owes();
    SumUpdate(s.workers, k, next, OwesFor(x));
  }

  lemma FlagKeepsClear(s: Instance, step: ListenerStep, x: int)
    requires ListenerEnabled(s, step) && (step.SkipWrite? || step.CancelOld?) && Clear(s, x) && SpawnAgrees(s)
    ensures var s' := ListenerNext(s, step); Clear(s', x) && SpawnAgrees(s')
  {
    StillLiveListener(s, step);
  }

  lemma CancelDrains(w: World, v: World, i: nat, x: int) returns (v': World)
    requires Alone(w, v, i) && i < |v.instances|
    requires var s := v.instances[i];
             && s.control.Skipped? && s.control.prev < |s.workers| && s.control.update.internalID == x
             && !s.ctxDone && s.leaked[x] == 0 && SpawnAgrees(s) && Clear(s, x)
             && Held(v.locks, i, x) <= Sum(s.workers, OwesFor(x))
    ensures Alone(w, v', i) && Draining(v', i, x) && v'.instances[i].control.trigger.internalID == x
  {
    var s := v.instances[i];
    FlagMovesNoDebt(s, CancelOld, x);
    FlagKeepsClear(s, CancelOld, x);
    v' := AloneOn(w, v, i, Listener(CancelOld));
    assert v'.instances[i] == ListenerNext(s, CancelOld) && v'.locks == v.locks;
  }

  // ---- (B)

  /** In a late hand-over nobody runs for the id any more. */
  lemma LateMeansClear(s: Instance)
    requires Inv(s) && s.control.LookedUp? && s.control.prev < |s.workers| && !s.workers[s.control.prev].BeforeRead()
    ensures Clear(s, s.control.update.internalID)
  {
  }

  /** After its bad move `m` instance `i` goes on by itself, with no further bad step,
      to worker `k` active for `x` although the instance does not hold the lock. */
  ghost predicate Loses(w: World, i: nat, x: int, m: Move, run: seq<Move>, k: nat) {
    && run != [] && run[0] == m && OnlyBy(run, i) && IsRun(w, run)
    && OnTime(MoveOn(w, m), run[1..]) && RestartsSucceed(run[1..])
    && Active(After(w, run), i, k, x) && Held(After(w, run).locks, i, x) == 0
  }

  /** A hand-over of `x` is about to come too late. */
  predicate LateHandOverAhead(s: Instance, x: int) {
    && LateHandOver(s, Listener(SkipWrite)) && s.control.update.internalID == x
    && !s.ctxDone && s.leaked[x] == 0
  }

  /** (B): from every sound world where a hand-over is about to come too late. */
  lemma LateHandOverLoses(w: World, i: nat, x: int) returns (run: seq<Move>, k: nat)
    requires Sound(w) && i < |w.instances| && LateHandOverAhead(w.instances[i], x)
    ensures Loses(w, i, x, Move(i, Listener(SkipWrite)), run, k)
  {
    var s, m := w.instances[i], Move(i, Listener(SkipWrite));
    var w1 := MoveOn(w, m);
    assert Held(w.locks, i, x) == Tokens(s, x);
    LateMeansClear(s);
    SpawnsAgree(s);
    FlagMovesNoDebt(s, SkipWrite, x);
    FlagKeepsClear(s, SkipWrite, x);
    assert w1.instances[i] == ListenerNext(s, SkipWrite) && w1.locks == w.locks;
    AloneAtFirst(w1, i);
    var v := CancelDrains(w1, w1, i, x);
    var v';
    v', k := RunsUnlocked(w1, v, i, x);
    run := AfterFirst(w, w1, m, v', i);
  }

  lemma AfterFirst(w: World, w1: World, m: Move, v: World, i: nat) returns (run: seq<Move>)
    requires CanMove(w, m) && w1 == MoveOn(w, m) && m.instance == i && Alone(w1, v, i)
    ensures run != [] && run[0] == m && OnlyBy(run, i) && IsRun(w, run) && After(w, run) == v
    ensures OnTime(w1, run[1..]) && RestartsSucceed(run[1..])
  {
    var rest :| IsRun(w1, rest) && After(w1, rest) == v && OnlyBy(rest, i) && OnTime(w1, rest) && RestartsSucceed(rest);
    run := [m] + rest;
    assert run[1..] == rest;
  }

  // ---- (A)

  /** A restart of `x` has failed, another update of `x` comes next, and the dead
      worker has yet to read its flag, so that the next hand-over is in time. */
  predicate FailedRestartAhead(s: Instance, x: int) {
    && s.control.Rereleasing? && s.control.trigger.internalID == x && !s.ctxDone && s.leaked[x] == 0
    && s.updates != [] && s.updates[0].internalID == x
    && x in s.owned && s.owned[x] < |s.workers| && s.workers[s.owned[x]].BeforeRead()
  }

  /** (A): from every sound world where a restart has failed and another update comes. */
  lemma FailedRestartLoses(w: World, i: nat, x: int, released: bool) returns (run: seq<Move>, k: nat)
    requires Sound(w) && i < |w.instances| && FailedRestartAhead(w.instances[i], x)
    ensures Loses(w, i, x, Move(i, Listener(Rerelease(released))), run, k)
  {
    var s, m := w.instances[i], Move(i, Listener(Rerelease(released)));
    var w1 := MoveOn(w, m);
    assert Held(w.locks, i, x) == Tokens(s, x);
    assert Handing(s.control, x);
    SpawnsAgree(s);
    assert w1.instances[i] == s.(control := Idle) && Held(w1.locks, i, x) <= Held(w.locks, i, x);
    AloneAtFirst(w1, i);
    var v := NextUpdateSkips(w1, i, x);
    var u := CancelDrains(w1, v, i, x);
    var v';
    v', k := RunsUnlocked(w1, u, i, x);
    run := AfterFirst(w, w1, m, v', i);
  }

  /** The next update of an id whose worker already has its flag set. */
  lemma NextUpdateSkips(w: World, i: nat, x: int) returns (v: World)
    requires i < |w.instances| && w.instances[i].control.Idle?
    requires var s := w.instances[i];
             && s.updates != [] && s.updates[0].internalID == x && Clear(s, x) && SpawnAgrees(s) && !s.ctxDone
             && x in s.owned && s.owned[x] < |s.workers| && s.workers[s.owned[x]].BeforeRead() && s.workers[s.owned[x]].skipCleanup
    ensures Alone(w, v, i) && i < |v.instances| && v.locks == w.locks
    ensures var s, t := w.instances[i], v.instances[i];
            && t.control.Skipped? && t.control.prev < |t.workers| && t.control.update.internalID == x
            && !t.ctxDone && t.leaked == s.leaked && SpawnAgrees(t) && Clear(t, x)
            && Sum(t.workers, OwesFor(x)) == Sum(s.workers, OwesFor(x))
  {
    var s := w.instances[i];
    AloneAtFirst(w, i);
    var v1 := AloneOn(w, w, i, Listener(Take));
    var s1 := v1.instances[i];
    assert s1.control == Taken(s.updates[0]) && s1.workers == s.workers && s1.owned == s.owned && s1.leaked == s.leaked;
    var v2 := AloneOn(w, v1, i, Listener(Lookup));
    var s2 := v2.instances[i];
    assert s2.control == LookedUp(s.updates[0], s.owned[x]) && s2.workers == s.workers && s2.leaked == s.leaked && !s2.ctxDone;
    FlagMovesNoDebt(s2, SkipWrite, x);
    FlagKeepsClear(s2, SkipWrite, x);
    v := AloneOn(w, v2, i, Listener(SkipWrite));
    assert v.instances[i] == ListenerNext(s2, SkipWrite);
  }
}
