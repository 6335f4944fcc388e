/** Mutual exclusion over all instances, in every interleaving. */
module MutualExclusion {
  import opened AdvisoryLock
  import opened Sums
  import opened Protocol
  import opened NoOrphans
  import opened Ownership

  /** The hold count of every id is exactly what this instance's tokens account for. */
  ghost predicate Balanced(s: Instance, locks: LockTable, i: nat) {
    forall x: int :: Held(locks, i, x) == Tokens(s, x)
  }

  ghost predicate Sound(w: World) {
    && Exclusive(w.locks)
    && forall i: nat | i < |w.instances| ::
         Inv(w.instances[i]) && HandOver(w.instances[i]) && Balanced(w.instances[i], w.locks, i)
  }

  predicate BadMove(w: World, m: Move)
    requires CanMove(w, m)
  {
    Bad(w.instances[m.instance], m.step)
  }

  lemma InitiallySound(w: World)
    requires Initial(w)
    ensures Sound(w) <==> InitialDistinct(w)
  {
    forall i: nat | i < |w.instances|
      ensures HandOver(w.instances[i]) && Balanced(w.instances[i], w.locks, i)
      ensures Inv(w.instances[i]) <==> DistinctIDs(w.instances[i].control.todo)
    {
      var todo, capacity :| w.instances[i] == InitInstance(todo, capacity);
      InitHolds(todo, capacity);
    }
    forall i | 0 <= i < |w.instances| && Sound(w) ensures DistinctIDs(w.instances[i].control.todo) {
      assert Inv(w.instances[i]);
    }
  }

  lemma ServeKeepsExclusive(t: LockTable, i: nat, call: LockCall)
    requires Exclusive(t) && Answers(t, i, call)
    ensures Exclusive(Serve(t, i, call))
  {
    if call.Try? { TryLockKeepsExclusive(t, i, call.key); }
    if call.Free? { UnlockKeepsExclusive(t, i, call.key); }
  }

  lemma ServeEffect(t: LockTable, i: nat, call: LockCall, j: nat, x: int)
    requires Answers(t, i, call)
    requires call.Free? ==> Held(t, i, call.key) > 0
    ensures Held(Serve(t, i, call), j, x) == Held(t, j, x) + if j == i then Effect(call, x) else 0
  {
  }

  /** Serving a call never moves another session's count. */
  lemma ServeElsewhere(t: LockTable, i: nat, call: LockCall, j: nat, x: int)
    requires j != i
    ensures Held(Serve(t, i, call), j, x) == Held(t, j, x)
  {
  }

  /** Whoever is about to release holds a token. */
  lemma ReleaserHasToken(s: Instance, step: Step)
    requires Enabled(s, step) && !Bad(s, step) && LockCallOf(s, step).Free?
    ensures Tokens(s, LockCallOf(s, step).key) > 0
  {
    if step.OfWorker? {
      var x := s.workers[step.k].ID();
      assert OwesFor(x)(s.workers[step.k]) == 1;
      SumPositive(s.workers, OwesFor(x));
    }
  }

  lemma GoodMoveBalances(w: World, m: Move)
    requires Sound(w) && CanMove(w, m) && !BadMove(w, m)
    ensures Balanced(MoveOn(w, m).instances[m.instance], MoveOn(w, m).locks, m.instance)
  {
    var i, s := m.instance, w.instances[m.instance];
    var call := LockCallOf(s, m.step);
    forall x: int ensures Held(MoveOn(w, m).locks, i, x) == Tokens(Next(s, m.step), x) {
      StepBalances(s, m.step, x);
      if call.Free? { ReleaserHasToken(s, m.step); }
      ServeEffect(w.locks, i, call, i, x);
    }
  }

  lemma GoodMoveKeeps(w: World, m: Move)
    requires Sound(w) && CanMove(w, m) && !BadMove(w, m)
    ensures Sound(MoveOn(w, m))
  {
    var w', i, s := MoveOn(w, m), m.instance, w.instances[m.instance];
    var call := LockCallOf(s, m.step);
    ServeKeepsExclusive(w.locks, i, call);
    StepKeeps(s, m.step);
    StepHandsOver(s, m.step);
    GoodMoveBalances(w, m);
    forall j: nat | j < |w'.instances| && j != i ensures Balanced(w'.instances[j], w'.locks, j) {
      forall x: int ensures Held(w'.locks, j, x) == Tokens(w'.instances[j], x) {
        ServeElsewhere(w.locks, i, call, j, x);
      }
    }
  }

  /** A late hand-over leaves one token more than the lock is held. */
  lemma LateHandOverBreaks(w: World, m: Move)
    requires Sound(w) && CanMove(w, m) && LateHandOver(w.instances[m.instance], m.step)
    ensures var w', x := MoveOn(w, m), w.instances[m.instance].control.update.internalID;
            Tokens(w'.instances[m.instance], x) == Held(w'.locks, m.instance, x) + 1
    ensures !Sound(MoveOn(w, m))
  {
    var i, s := m.instance, w.instances[m.instance];
    var x := s.control.update.internalID;
    StepBalances(s, m.step, x);
    assert Held(w.locks, i, x) == Tokens(s, x);
    assert Tokens(MoveOn(w, m).instances[i], x) == Held(MoveOn(w, m).locks, i, x) + 1;
  }

  /** A failed restart leaves its dead worker in the map, as if it were being replaced. */
  lemma FailedRestartBreaks(w: World, m: Move)
    requires Sound(w) && CanMove(w, m) && FailedRestart(m.step)
    ensures var s, x := MoveOn(w, m).instances[m.instance], w.instances[m.instance].control.trigger.internalID;
            && x in s.owned && s.owned[x] < |s.workers| && s.workers[s.owned[x]].skipCleanup
            && !Live(s, s.owned[x]) && !Handing(s.control, x)
    ensures !Sound(MoveOn(w, m))
  {
    var s := w.instances[m.instance];
    var s' := ListenerNext(s, m.step.listener);
    var x := s.control.trigger.internalID;
    assert Handing(s.control, x);
    assert x in s'.owned && s'.workers[s'.owned[x]].skipCleanup && !Handing(s'.control, x);
    assert !HandOver(s');
    assert MoveOn(w, m).instances[m.instance] == s';
  }

  /** The exact condition: a move keeps all this in order if and only if it is neither a
      hand-over that comes too late nor the end of a failed restart. */
  lemma SoundStepByStep(w: World, m: Move)
    requires Sound(w) && CanMove(w, m)
    ensures Sound(MoveOn(w, m)) <==> !BadMove(w, m)
  {
    if !BadMove(w, m) {
      GoodMoveKeeps(w, m);
    } else if LateHandOver(w.instances[m.instance], m.step) {
      LateHandOverBreaks(w, m);
    } else {
      FailedRestartBreaks(w, m);
    }
  }

  /** Assumption (A): no restart fails along the run. */
  predicate RestartsSucceed(run: seq<Move>) { forall m | m in run :: !FailedRestart(m.step) }

  /** Assumption (B): every hand-over reaches the old worker before it reads its flag. */
  predicate OnTime(w: World, run: seq<Move>)
    requires IsRun(w, run)
    decreases |run|
  {
    run != [] ==> !LateHandOver(w.instances[run[0].instance], run[0].step) && OnTime(MoveOn(w, run[0]), run[1..])
  }

  predicate GoodRun(w: World, run: seq<Move>)
    requires IsRun(w, run)
  {
    RestartsSucceed(run) && OnTime(w, run)
  }

  lemma {:induction false} GoodRunSound(w: World, run: seq<Move>)
    requires Sound(w) && IsRun(w, run) && GoodRun(w, run)
    ensures Sound(After(w, run))
    decreases |run|
  {
    if run != [] {
      GoodMoveKeeps(w, run[0]);
      GoodRunSound(MoveOn(w, run[0]), run[1..]);
    }
  }

  ghost predicate SoundThroughout(w: World, run: seq<Move>)
    requires IsRun(w, run)
    decreases |run|
  {
    Sound(w) && (run != [] ==> SoundThroughout(MoveOn(w, run[0]), run[1..]))
  }

  /** Over a whole run: hold counts, tokens and hand-overs stay in order at every
      point exactly when (A) and (B) hold along it.  (After a failed restart the counts
      may still balance; what is out of order is the dead worker left in the map.) */
  lemma {:induction false} SoundThroughoutExactly(w: World, run: seq<Move>)
    requires Sound(w) && IsRun(w, run)
    ensures SoundThroughout(w, run) <==> GoodRun(w, run)
    decreases |run|
  {
    if run != [] {
      SoundStepByStep(w, run[0]);
      if !BadMove(w, run[0]) {
        SoundThroughoutExactly(MoveOn(w, run[0]), run[1..]);
      }
    }
  }

  /** A live worker's lock is accounted for. */
  lemma LiveHasToken(s: Instance, k: nat)
    requires Inv(s) && HandOver(s) && Live(s, k)
    ensures Tokens(s, s.workers[k].ID()) > 0
  {
    var x := s.workers[k].ID();
    if !s.workers[k].skipCleanup {
      assert OwesFor(x)(s.workers[k]) == 1;
      SumPositive(s.workers, OwesFor(x));
    } else {
      assert s.owned[x] == k && Handing(s.control, x);
    }
  }

  /** Mutual exclusion: over all instances at most one live worker per id, and
      its instance, and no other, holds the lock.  A live worker is one before
      its exit whose context is not done, so this covers every worker in its
      forwarding loop. */
  lemma AtMostOneWorker(w: World, run: seq<Move>, i: nat, k: nat, j: nat, l: nat)
    requires InitialDistinct(w) && IsRun(w, run) && GoodRun(w, run)
    requires var w' := After(w, run);
             i < |w'.instances| && j < |w'.instances| && Live(w'.instances[i], k) && Live(w'.instances[j], l)
             && w'.instances[i].workers[k].ID() == w'.instances[j].workers[l].ID()
    ensures i == j && k == l
    ensures var w' := After(w, run);
            var x := w'.instances[i].workers[k].ID();
            Held(w'.locks, i, x) > 0 && forall o: Session | o != i :: Held(w'.locks, o, x) == 0
  {
    InitiallySound(w);
    GoodRunSound(w, run);
    var w' := After(w, run);
    LiveHasToken(w'.instances[i], k);
    LiveHasToken(w'.instances[j], l);
  }

  /** Conservation over runs: the hold count of (instance, id) is the number of
      workers still owing a release, plus the token in hand, plus the releases
      that failed. */
  lemma HoldCount(w: World, run: seq<Move>, i: nat, x: int)
    requires InitialDistinct(w) && IsRun(w, run) && GoodRun(w, run) && i < |After(w, run).instances|
    ensures var w' := After(w, run);
            var s := w'.instances[i];
            Held(w'.locks, i, x) == Sum(s.workers, OwesFor(x)) + InHand(s.control, x) + s.leaked[x]
  {
    InitiallySound(w);
    GoodRunSound(w, run);
  }

  /** Within one instance ids stay unshared even if restarts fail and hand-overs
      come late: only distinct ids at `Start` are needed. */
  lemma {:induction false} RunKeepsInv(w: World, run: seq<Move>)
    requires IsRun(w, run) && forall i: nat | i < |w.instances| :: Inv(w.instances[i])
    ensures |After(w, run).instances| == |w.instances|
    ensures forall i: nat | i < |w.instances| :: Inv(After(w, run).instances[i])
    decreases |run|
  {
    if run != [] {
      StepKeeps(w.instances[run[0].instance], run[0].step);
      RunKeepsInv(MoveOn(w, run[0]), run[1..]);
    }
  }

  lemma NoOrphanWorkers(w: World, run: seq<Move>, i: nat, k: nat)
    requires InitialDistinct(w) && IsRun(w, run) && i < |w.instances|
    requires i < |After(w, run).instances| && Live(After(w, run).instances[i], k)
    ensures var s := After(w, run).instances[i];
            var x := s.workers[k].ID();
            && x in s.owned && s.owned[x] == k
            && forall l: nat | Live(s, l) && s.workers[l].ID() == x :: l == k
  {
    InitiallySound(w);
    RunKeepsInv(w, run);
  }

  /** Whenever the listener is at its select, every live worker runs the last
      configuration taken for its id. */
  lemma ConfigurationAgreement(w: World, run: seq<Move>, i: nat, k: nat)
    requires InitialDistinct(w) && IsRun(w, run) && i < |w.instances|
    requires i < |After(w, run).instances| && Live(After(w, run).instances[i], k)
    requires !BeforeCancel(After(w, run).instances[i].control)
    ensures var s := After(w, run).instances[i];
            var t := s.workers[k].trigger;
            t.internalID in s.last && s.last[t.internalID] == t
  {
    InitiallySound(w);
    RunKeepsInv(w, run);
    assert Agrees(After(w, run).instances[i], k);
  }

  lemma {:induction false} RunRevivesNone(w: World, run: seq<Move>, i: nat, k: nat)
    requires IsRun(w, run) && forall j: nat | j < |w.instances| :: Inv(w.instances[j])
    requires i < |w.instances| && k < |w.instances[i].workers| && !Live(w.instances[i], k)
    ensures |After(w, run).instances| == |w.instances| && !Live(After(w, run).instances[i], k)
    decreases |run|
  {
    if run != [] {
      StepKeeps(w.instances[run[0].instance], run[0].step);
      StepRevivesNone(w.instances[run[0].instance], run[0].step);
      RunRevivesNone(MoveOn(w, run[0]), run[1..], i, k);
    }
  }

  /** A call of Shutdown, wherever a run has got to, leaves no live worker, and none
      of the workers there were comes to life again however the run goes on. */
  lemma ShutdownIsForGood(w: World, run: seq<Move>, i: nat, step: Step, further: seq<Move>, k: nat)
    requires InitialDistinct(w) && IsRun(w, run) && (step.ShutdownCall? || step.Watch?)
    requires CanMove(After(w, run), Move(i, step)) && IsRun(MoveOn(After(w, run), Move(i, step)), further)
    requires k < |After(w, run).instances[i].workers|
    ensures var v := MoveOn(After(w, run), Move(i, step));
            && (forall l: nat :: !Live(v.instances[i], l))
            && i < |After(v, further).instances| && !Live(After(v, further).instances[i], k)
  {
    InitiallySound(w);
    RunKeepsInv(w, run);
    var u := After(w, run);
    var v := MoveOn(u, Move(i, step));
    ShutdownCancels(u.instances[i], step);
    StepKeeps(u.instances[i], step);
    RunRevivesNone(v, further, i, k);
  }
}
