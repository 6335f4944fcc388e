/** Runs from the start that break mutual exclusion: two instances run one trigger. */
module Witnesses {
  import opened AdvisoryLock
  import opened Protocol
  import opened NoOrphans
  import opened Ownership
  import opened MutualExclusion

  const T: Trigger := Trigger(7, 1, "a", "mock", "")

  /** Worker `k` of instance `i` is in its forwarding loop, not cancelled, for id `x`. */
  predicate Active(w: World, i: nat, k: nat, x: int) {
    && i < |w.instances| && Live(w.instances[i], k)
    && w.instances[i].workers[k].phase.Forwarding? && w.instances[i].workers[k].ID() == x
  }

  /** Two workers are active for one id. */
  ghost predicate Overlap(w: World) {
    exists i: nat, k: nat, j: nat, l: nat, x: int :: (i, k) != (j, l) && Active(w, i, k, x) && Active(w, j, l, x)
  }

  lemma {:induction false} RunExtends(w: World, run: seq<Move>, m: Move)
    requires IsRun(w, run) && CanMove(After(w, run), m)
    ensures IsRun(w, run + [m]) && After(w, run + [m]) == MoveOn(After(w, run), m)
    ensures OnTime(w, run + [m]) <==>
            OnTime(w, run) && !LateHandOver(After(w, run).instances[m.instance], m.step)
    decreases |run|
  {
    if run == [] {
      assert [m][1..] == [];
    } else {
      RunExtends(MoveOn(w, run[0]), run[1..], m);
      assert (run + [m])[1..] == run[1..] + [m];
    }
  }

  /** A run leads from `w` to `v`; `onTime` and `restarts` say whether (B) and (A) hold along it. */
  ghost predicate Leads(w: World, v: World, onTime: bool, restarts: bool) {
    exists run :: IsRun(w, run) && After(w, run) == v && OnTime(w, run) == onTime && RestartsSucceed(run) == restarts
  }

  lemma LeadsNowhere(w: World)
    ensures Leads(w, w, true, true)
  {
    assert IsRun(w, []) && After(w, []) == w && OnTime(w, []) && RestartsSucceed([]);
  }

  lemma LeadsOn(w: World, v: World, onTime: bool, restarts: bool, i: nat, step: Step)
    requires Leads(w, v, onTime, restarts) && CanMove(v, Move(i, step))
    ensures Leads(w, MoveOn(v, Move(i, step)), onTime && !LateHandOver(v.instances[i], step),
                  restarts && !FailedRestart(step))
  {
    var run :| IsRun(w, run) && After(w, run) == v && OnTime(w, run) == onTime && RestartsSucceed(run) == restarts;
    RunExtends(w, run, Move(i, step));
    assert RestartsSucceed(run + [Move(i, step)]) <==> RestartsSucceed(run) && !FailedRestart(step);
  }

  /** One move of instance 0, to a state spelt out. */
  lemma Goes(w: World, s: Instance, z: Instance, locks: LockTable, flags: (bool, bool),
             step: Step, s': Instance, locks': LockTable)
    requires Leads(w, World([s, z], locks), flags.0, flags.1)
    requires Enabled(s, step) && Answers(locks, 0, LockCallOf(s, step))
    requires s' == Next(s, step) && locks' == Serve(locks, 0, LockCallOf(s, step))
    ensures Leads(w, World([s', z], locks'), flags.0 && !LateHandOver(s, step), flags.1 && !FailedRestart(step))
  {
    LeadsOn(w, World([s, z], locks), flags.0, flags.1, 0, step);
    assert MoveOn(World([s, z], locks), Move(0, step)) == World([s', z], locks');
  }

  /** One move of instance 1, likewise. */
  lemma OtherGoes(w: World, z: Instance, s: Instance, locks: LockTable, flags: (bool, bool),
                  step: Step, s': Instance, locks': LockTable)
    requires Leads(w, World([z, s], locks), flags.0, flags.1)
    requires Enabled(s, step) && Answers(locks, 1, LockCallOf(s, step))
    requires s' == Next(s, step) && locks' == Serve(locks, 1, LockCallOf(s, step))
    ensures Leads(w, World([z, s'], locks'), flags.0 && !LateHandOver(s, step), flags.1 && !FailedRestart(step))
  {
    LeadsOn(w, World([z, s], locks), flags.0, flags.1, 1, step);
    assert MoveOn(World([z, s], locks), Move(1, step)) == World([z, s'], locks');
  }

  const YES: (bool, bool) := (true, true)

  const FIRST: Worker := NewWorker(T).(phase := Subscribing)

  /** The instance once `Start` has started its first trigger. */
  function Begun(rest: seq<Trigger>): Instance {
    Instance(map[7 := 0], [FIRST], Starting(rest), false, [], false, 1, 1, [], [], false, 0, false, map[7 := T], multiset{})
  }

  function HeldBy(i: nat): LockTable { map[(i, 7) := 1] }

  lemma FirstStarts(rest: seq<Trigger>, z: Instance)
    ensures Leads(World([InitInstance([T] + rest, 1), z], map[]), World([Begun(rest), z], HeldBy(0)), true, true)
  {
    var s := InitInstance([T] + rest, 1);
    var w := World([s, z], map[]);
    LeadsNowhere(w);
    var s1 := s.(control := Acquiring(T, InStart(rest)), last := map[7 := T]);
    assert ([T] + rest)[1..] == rest;
    assert StartStepNext(s, StartNext) == s1;
    Goes(w, s, z, map[], YES, Start(StartNext), s1, map[]);
    var s2 := s1.(control := Building(T, InStart(rest)));
    assert LaunchNext(s1, Acquire(Got)) == s2;
    Goes(w, s1, z, map[], YES, Launch(Acquire(Got)), s2, HeldBy(0));
    var s3 := s2.(control := Spawning(0, InStart(rest)), owned := map[7 := 0], workers := [NewWorker(T)]);
    assert LaunchNext(s2, Insert) == s3;
    Goes(w, s2, z, HeldBy(0), YES, Launch(Insert), s3, HeldBy(0));
    assert LaunchNext(s3, Spawn) == Begun(rest);
    Goes(w, s3, z, HeldBy(0), YES, Launch(Spawn), Begun(rest), HeldBy(0));
  }

  const ACTIVE: Worker := NewWorker(T).(phase := Forwarding)

  /** A successor is inserted, started and subscribed: the end of a launch. */
  lemma SuccessorRuns(w: World, s: Instance, z: Instance, locks: LockTable, flags: (bool, bool)) returns (s': Instance)
    requires Leads(w, World([s, z], locks), flags.0, flags.1)
    requires s.control.Building? && s.control.trigger == T && |s.workers| == 1
    ensures s' == s.(control := Resume(s.control.cont, false), owned := s.owned[7 := 1],
                     workers := s.workers + [ACTIVE], wg := s.wg + 1)
    ensures Leads(w, World([s', z], locks), flags.0, flags.1)
  {
    var s1 := s.(control := Spawning(1, s.control.cont), owned := s.owned[7 := 1], workers := s.workers + [NewWorker(T)]);
    assert LaunchNext(s, Insert) == s1;
    Goes(w, s, z, locks, flags, Launch(Insert), s1, locks);
    s' := SuccessorStarts(w, s1, z, locks, flags);
    assert s1.workers[1 := ACTIVE] == s.workers + [ACTIVE];
  }

  lemma SuccessorStarts(w: World, s: Instance, z: Instance, locks: LockTable, flags: (bool, bool)) returns (s': Instance)
    requires Leads(w, World([s, z], locks), flags.0, flags.1)
    requires s.control.Spawning? && s.control.made == 1 && |s.workers| == 2 && s.workers[1] == NewWorker(T)
    ensures s' == s.(control := Resume(s.control.cont, false), workers := s.workers[1 := ACTIVE], wg := s.wg + 1)
    ensures Leads(w, World([s', z], locks), flags.0, flags.1)
  {
    var s1 := s.(control := Resume(s.control.cont, false), wg := s.wg + 1, workers := s.workers[1 := FIRST]);
    assert LaunchNext(s, Spawn) == s1;
    Goes(w, s, z, locks, flags, Launch(Spawn), s1, locks);
    s' := s1.(workers := s.workers[1 := ACTIVE]);
    assert s1.workers[1 := ACTIVE] == s.workers[1 := ACTIVE];
    assert WorkerNext(s1, 1, Subscribe(true)) == s';
    Goes(w, s1, z, locks, flags, OfWorker(1, Subscribe(true)), s', locks);
  }

  /** `Start` returns and the listener listens. */
  lemma ListenerStarts(z: Instance) returns (s: Instance)
    ensures s == Begun([]).(control := Idle, wg := 2, watching := true)
    ensures Leads(World([InitInstance([T], 1), z], map[]), World([s, z], HeldBy(0)), true, true)
  {
    FirstStarts([], z);
    assert [T] + [] == [T];
    s := Begun([]).(control := Idle, wg := 2, watching := true);
    assert StartStepNext(Begun([]), StartListener(true)) == s;
    Goes(World([InitInstance([T], 1), z], map[]), Begun([]), z, HeldBy(0), YES, Start(StartListener(true)), s, HeldBy(0));
  }

  /** Instance 1 starts the same trigger once instance 0's count is back to zero. */
  lemma OtherTakesOver(w: World, z: Instance, flags: (bool, bool)) returns (s: Instance)
    requires Leads(w, World([z, InitInstance([T], 1)], map[(0, 7) := 0]), flags.0, flags.1)
    ensures s.workers == [ACTIVE] && !s.ctxDone
    ensures Leads(w, World([z, s], map[(0, 7) := 0, (1, 7) := 1]), flags.0, flags.1)
  {
    var free, taken := map[(0, 7) := 0], map[(0, 7) := 0, (1, 7) := 1];
    var s0 := InitInstance([T], 1);
    var s1 := s0.(control := Acquiring(T, InStart([])), last := map[7 := T]);
    assert [T][1..] == [];
    assert StartStepNext(s0, StartNext) == s1;
    OtherGoes(w, z, s0, free, flags, Start(StartNext), s1, free);
    var s2 := s1.(control := Building(T, InStart([])));
    assert LaunchNext(s1, Acquire(Got)) == s2;
    assert TryLock(free, 1, 7).1 == taken;
    OtherGoes(w, z, s1, free, flags, Launch(Acquire(Got)), s2, taken);
    s := OtherRuns(w, z, taken, flags);
  }

  lemma OtherRuns(w: World, z: Instance, locks: LockTable, flags: (bool, bool)) returns (s: Instance)
    requires Leads(w, World([z, InitInstance([T], 1).(control := Building(T, InStart([])), last := map[7 := T])], locks),
                   flags.0, flags.1)
    ensures s.workers == [ACTIVE] && !s.ctxDone && Leads(w, World([z, s], locks), flags.0, flags.1)
  {
    var s3 := OtherInserts(w, z, locks, flags);
    assert LaunchNext(s3, Spawn) == Begun([]);
    OtherGoes(w, z, s3, locks, flags, Launch(Spawn), Begun([]), locks);
    s := Begun([]).(workers := [ACTIVE]);
    assert WorkerNext(Begun([]), 0, Subscribe(true)) == s;
    OtherGoes(w, z, Begun([]), locks, flags, OfWorker(0, Subscribe(true)), s, locks);
  }

  lemma OtherInserts(w: World, z: Instance, locks: LockTable, flags: (bool, bool)) returns (s: Instance)
    requires Leads(w, World([z, InitInstance([T], 1).(control := Building(T, InStart([])), last := map[7 := T])], locks),
                   flags.0, flags.1)
    ensures s == InitInstance([T], 1).(control := Spawning(0, InStart([])), owned := map[7 := 0],
                                       workers := [NewWorker(T)], last := map[7 := T])
    ensures Leads(w, World([z, s], locks), flags.0, flags.1)
  {
    var s0 := InitInstance([T], 1).(control := Building(T, InStart([])), last := map[7 := T]);
    s := s0.(control := Spawning(0, InStart([])), owned := map[7 := 0], workers := [NewWorker(T)]);
    assert LaunchNext(s0, Insert) == s;
    OtherGoes(w, z, s0, locks, flags, Launch(Insert), s, locks);
  }

  /** The listener takes an update for the id it owns and looks it up. */
  lemma UpdateIsLookedUp(w: World, s: Instance, z: Instance, locks: LockTable, flags: (bool, bool))
    returns (s': Instance)
    requires Leads(w, World([s, z], locks), flags.0, flags.1)
    requires s.control.Idle? && s.updates == [] && !s.updatesClosed && s.owned == map[7 := 0] && s.last == map[7 := T]
    ensures s' == s.(control := LookedUp(T, 0)) && Leads(w, World([s', z], locks), flags.0, flags.1)
  {
    var s1 := UpdateIsTaken(w, s, z, locks, flags);
    s' := s.(control := LookedUp(T, 0));
    assert ListenerNext(s1, Lookup) == s';
    Goes(w, s1, z, locks, flags, Listener(Lookup), s', locks);
  }

  lemma UpdateIsTaken(w: World, s: Instance, z: Instance, locks: LockTable, flags: (bool, bool))
    returns (s': Instance)
    requires Leads(w, World([s, z], locks), flags.0, flags.1)
    requires s.control.Idle? && s.updates == [] && !s.updatesClosed && s.last == map[7 := T]
    ensures s' == s.(control := Taken(T)) && Leads(w, World([s', z], locks), flags.0, flags.1)
  {
    var s1 := s.(updates := [T]);
    assert EnvironmentNext(s, UpdateArrives(T)) == s1;
    Goes(w, s, z, locks, flags, Environment(UpdateArrives(T)), s1, locks);
    s' := ArrivedIsTaken(w, s1, z, locks, flags);
  }

  lemma ArrivedIsTaken(w: World, s: Instance, z: Instance, locks: LockTable, flags: (bool, bool))
    returns (s': Instance)
    requires Leads(w, World([s, z], locks), flags.0, flags.1)
    requires s.control.Idle? && s.updates == [T] && s.last == map[7 := T]
    ensures s' == s.(control := Taken(T), updates := []) && Leads(w, World([s', z], locks), flags.0, flags.1)
  {
    s' := s.(control := Taken(T), updates := []);
    assert [T][1..] == [] && map[7 := T][7 := T] == map[7 := T];
    assert ListenerNext(s, Take) == s';
    Goes(w, s, z, locks, flags, Listener(Take), s', locks);
  }

  /** The flag is set, in time or not, and the old worker cancelled. */
  lemma OldIsCancelled(w: World, s: Instance, z: Instance, locks: LockTable, flags: (bool, bool))
    returns (s': Instance)
    requires Leads(w, World([s, z], locks), flags.0, flags.1)
    requires s.control == LookedUp(T, 0) && |s.workers| == 1
    ensures s' == s.(control := Building(T, Restart), workers := [s.workers[0].(skipCleanup := true, cancelled := true)])
    ensures Leads(w, World([s', z], locks), flags.0 && s.workers[0].BeforeRead(), flags.1)
  {
    var s1 := s.(control := Skipped(T, 0), workers := [s.workers[0].(skipCleanup := true)]);
    assert ListenerNext(s, SkipWrite) == s1;
    Goes(w, s, z, locks, flags, Listener(SkipWrite), s1, locks);
    s' := SkippedIsCancelled(w, s1, z, locks, (flags.0 && s.workers[0].BeforeRead(), flags.1));
  }

  lemma SkippedIsCancelled(w: World, s: Instance, z: Instance, locks: LockTable, flags: (bool, bool))
    returns (s': Instance)
    requires Leads(w, World([s, z], locks), flags.0, flags.1)
    requires s.control == Skipped(T, 0) && |s.workers| == 1
    ensures s' == s.(control := Building(T, Restart), workers := [s.workers[0].(cancelled := true)])
    ensures Leads(w, World([s', z], locks), flags.0, flags.1)
  {
    s' := s.(control := Building(T, Restart), workers := [s.workers[0].(cancelled := true)]);
    assert ListenerNext(s, CancelOld) == s';
    Goes(w, s, z, locks, flags, Listener(CancelOld), s', locks);
  }

  /** Without (A): a restart fails, the next one succeeds with no lock held, and
      another instance takes the lock.  Hand-overs are in time throughout. */
  lemma FailedRestartOverlaps()
    ensures exists v :: Leads(World([InitInstance([T], 1), InitInstance([T], 1)], map[]), v, true, false) && Overlap(v)
  {
    var z := InitInstance([T], 1);
    var w := World([z, z], map[]);
    var s1 := ListenerStarts(z);
    var s2 := UpdateIsLookedUp(w, s1, z, HeldBy(0), YES);
    var s3 := OldIsCancelled(w, s2, z, HeldBy(0), YES);
    var s4 := RestartFails(w, s3, z);
    var s5 := UpdateIsLookedUp(w, s4, z, map[(0, 7) := 0], (true, false));
    var s6 := OldIsCancelled(w, s5, z, map[(0, 7) := 0], (true, false));
    var s7 := SuccessorRuns(w, s6, z, map[(0, 7) := 0], (true, false));
    var s8 := OtherTakesOver(w, s7, (true, false));
    var v := World([s7, s8], map[(0, 7) := 0, (1, 7) := 1]);
    assert Active(v, 0, 1, 7) && Active(v, 1, 0, 7);
  }

  lemma RestartFails(w: World, s: Instance, z: Instance) returns (s': Instance)
    requires Leads(w, World([s, z], HeldBy(0)), true, true) && s.control == Building(T, Restart)
    ensures s' == s.(control := Idle) && Leads(w, World([s', z], map[(0, 7) := 0]), true, false)
  {
    var s1 := s.(control := BuildFailed(T, Restart));
    assert LaunchNext(s, BuildError) == s1;
    Goes(w, s, z, HeldBy(0), YES, Launch(BuildError), s1, HeldBy(0));
    s' := FailureReleases(w, s1, z);
  }

  lemma FailureReleases(w: World, s1: Instance, z: Instance) returns (s': Instance)
    requires Leads(w, World([s1, z], HeldBy(0)), true, true) && s1.control == BuildFailed(T, Restart)
    ensures s' == s1.(control := Idle) && Leads(w, World([s', z], map[(0, 7) := 0]), true, false)
  {
    var s := s1;
    var s2 := s.(control := Rereleasing(T));
    assert LaunchNext(s1, FailRelease(true)) == s2;
    Goes(w, s1, z, HeldBy(0), YES, Launch(FailRelease(true)), s2, map[(0, 7) := 0]);
    s' := s.(control := Idle);
    assert ListenerNext(s2, Rerelease(true)) == s';
    Goes(w, s2, z, map[(0, 7) := 0], YES, Listener(Rerelease(true)), s', map[(0, 7) := 0]);
  }

  /** The worker ends by itself: it reads its flag, leaves the map and releases. */
  lemma WorkerCleansUpItself(w: World, s: Instance, z: Instance) returns (s': Instance)
    requires Leads(w, World([s, z], HeldBy(0)), true, true)
    requires s.workers == [FIRST.(phase := Exiting, sourceClosed := true)] && s.owned == map[7 := 0]
    ensures s' == s.(owned := map[], workers := [s.workers[0].(phase := Finishing)])
    ensures Leads(w, World([s', z], map[(0, 7) := 0]), true, true)
  {
    var s1 := s.(workers := [s.workers[0].(phase := Deleting)]);
    assert WorkerNext(s, 0, SkipRead) == s1;
    Goes(w, s, z, HeldBy(0), YES, OfWorker(0, SkipRead), s1, HeldBy(0));
    s' := WorkerReleases(w, s1, z);
  }

  lemma WorkerReleases(w: World, s: Instance, z: Instance) returns (s': Instance)
    requires Leads(w, World([s, z], HeldBy(0)), true, true)
    requires s.workers == [FIRST.(phase := Deleting, sourceClosed := true)] && s.owned == map[7 := 0]
    ensures s' == s.(owned := map[], workers := [s.workers[0].(phase := Finishing)])
    ensures Leads(w, World([s', z], map[(0, 7) := 0]), true, true)
  {
    var s1 := s.(owned := map[], workers := [s.workers[0].(phase := Releasing)]);
    assert WorkerNext(s, 0, GuardedDelete) == s1;
    Goes(w, s, z, HeldBy(0), YES, OfWorker(0, GuardedDelete), s1, HeldBy(0));
    s' := WorkerFrees(w, s1, z);
  }

  lemma WorkerFrees(w: World, s: Instance, z: Instance) returns (s': Instance)
    requires Leads(w, World([s, z], HeldBy(0)), true, true)
    requires s.workers == [FIRST.(phase := Releasing, sourceClosed := true)]
    ensures s' == s.(workers := [s.workers[0].(phase := Finishing)])
    ensures Leads(w, World([s', z], map[(0, 7) := 0]), true, true)
  {
    s' := s.(workers := [s.workers[0].(phase := Finishing)]);
    assert WorkerNext(s, 0, Release(true)) == s';
    Goes(w, s, z, HeldBy(0), YES, OfWorker(0, Release(true)), s', map[(0, 7) := 0]);
  }

  /** The worker's subscriber closes its channel and the worker leaves its loop. */
  lemma SourceEnds(w: World, s: Instance, z: Instance) returns (s': Instance)
    requires Leads(w, World([s, z], HeldBy(0)), true, true) && s.workers == [FIRST]
    ensures s' == s.(workers := [FIRST.(phase := Exiting, sourceClosed := true)])
    ensures Leads(w, World([s', z], HeldBy(0)), true, true)
  {
    var s1 := s.(workers := [ACTIVE]);
    assert WorkerNext(s, 0, Subscribe(true)) == s1;
    Goes(w, s, z, HeldBy(0), YES, OfWorker(0, Subscribe(true)), s1, HeldBy(0));
    s' := ActiveEnds(w, s1, z);
  }

  lemma ActiveEnds(w: World, s: Instance, z: Instance) returns (s': Instance)
    requires Leads(w, World([s, z], HeldBy(0)), true, true) && s.workers == [ACTIVE]
    ensures s' == s.(workers := [FIRST.(phase := Exiting, sourceClosed := true)])
    ensures Leads(w, World([s', z], HeldBy(0)), true, true)
  {
    var s1 := s.(workers := [ACTIVE.(sourceClosed := true)]);
    assert EnvironmentNext(s, CloseSource(0)) == s1;
    Goes(w, s, z, HeldBy(0), YES, Environment(CloseSource(0)), s1, HeldBy(0));
    s' := s.(workers := [FIRST.(phase := Exiting, sourceClosed := true)]);
    assert WorkerNext(s1, 0, ExitClosed) == s';
    Goes(w, s1, z, HeldBy(0), YES, OfWorker(0, ExitClosed), s', HeldBy(0));
  }

  /** Without (B): between the listener's lookup and its write the old worker
      cleans up, so the successor runs with no lock held.  No restart fails. */
  lemma LateHandOverOverlaps()
    ensures exists v :: Leads(World([InitInstance([T], 1), InitInstance([T], 1)], map[]), v, false, true) && Overlap(v)
  {
    var z := InitInstance([T], 1);
    var w := World([z, z], map[]);
    var s1 := ListenerStarts(z);
    var s2 := SourceEnds(w, s1, z);
    var s3 := UpdateIsLookedUp(w, s2, z, HeldBy(0), YES);
    var s4 := WorkerCleansUpItself(w, s3, z);
    var s5 := OldIsCancelled(w, s4, z, map[(0, 7) := 0], YES);
    var s6 := SuccessorRuns(w, s5, z, map[(0, 7) := 0], (false, true));
    var s7 := OtherTakesOver(w, s6, (false, true));
    var v := World([s6, s7], map[(0, 7) := 0, (1, 7) := 1]);
    assert Active(v, 0, 1, 7) && Active(v, 1, 0, 7);
  }
}
