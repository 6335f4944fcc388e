/** A stretch of steps that one instance takes without being interrupted. */
module Walks {
  import opened AdvisoryLock
  import opened Protocol

  predicate CanWalk(s: Instance, t: LockTable, i: nat, steps: seq<Step>)
    decreases |steps|
  {
    steps != [] ==>
      && Enabled(s, steps[0]) && Answers(t, i, LockCallOf(s, steps[0]))
      && CanWalk(Next(s, steps[0]), Serve(t, i, LockCallOf(s, steps[0])), i, steps[1..])
  }

  function Along(s: Instance, t: LockTable, i: nat, steps: seq<Step>): (Instance, LockTable)
    requires CanWalk(s, t, i, steps)
    decreases |steps|
  {
    if steps == [] then (s, t) else
      Along(Next(s, steps[0]), Serve(t, i, LockCallOf(s, steps[0])), i, steps[1..])
  }

  /** The steps lead from one state and lock table to the other. */
  predicate Walk(s: Instance, t: LockTable, i: nat, steps: seq<Step>, s': Instance, t': LockTable) {
    CanWalk(s, t, i, steps) && Along(s, t, i, steps) == (s', t')
  }

  /** One step that leads from one state to the other. */
  predicate Takes(s: Instance, step: Step, s': Instance) { Enabled(s, step) && Next(s, step) == s' }

  lemma OneStep(s: Instance, t: LockTable, i: nat, step: Step)
    requires Enabled(s, step) && Answers(t, i, LockCallOf(s, step))
    ensures Walk(s, t, i, [step], Next(s, step), Serve(t, i, LockCallOf(s, step)))
  {
    assert [step][1..] == [];
  }

  lemma {:induction false} Further(s: Instance, t: LockTable, i: nat, steps: seq<Step>, m: Instance, u: LockTable,
                                  step: Step, s': Instance, t': LockTable)
    requires Walk(s, t, i, steps, m, u)
    requires Takes(m, step, s') && Answers(u, i, LockCallOf(m, step)) && Serve(u, i, LockCallOf(m, step)) == t'
    ensures Walk(s, t, i, steps + [step], s', t')
    decreases |steps|
  {
    var longer := steps + [step];
    if steps == [] {
      assert longer[0] == step && longer[1..] == [];
    } else {
      Further(Next(s, steps[0]), Serve(t, i, LockCallOf(s, steps[0])), i, steps[1..], m, u, step, s', t');
      assert longer[1..] == steps[1..] + [step] && longer[0] == steps[0];
    }
  }

  lemma {:induction false} Join(s: Instance, t: LockTable, i: nat, a: seq<Step>, m: Instance, u: LockTable,
                               b: seq<Step>, s': Instance, t': LockTable)
    requires Walk(s, t, i, a, m, u) && Walk(m, u, i, b, s', t')
    ensures Walk(s, t, i, a + b, s', t')
    decreases |a|
  {
    if a == [] {
      assert a + b == b;
    } else {
      Join(Next(s, a[0]), Serve(t, i, LockCallOf(s, a[0])), i, a[1..], m, u, b, s', t');
      assert (a + b)[1..] == a[1..] + b && (a + b)[0] == a[0];
    }
  }

  function MovesOf(i: nat, steps: seq<Step>): seq<Move> {
    seq(|steps|, n requires 0 <= n < |steps| => Move(i, steps[n]))
  }

  /** A walk of one instance is a run of any world it is part of. */
  lemma {:induction false} WalkIsRun(w: World, i: nat, steps: seq<Step>, s': Instance, t': LockTable)
    requires i < |w.instances| && Walk(w.instances[i], w.locks, i, steps, s', t')
    ensures IsRun(w, MovesOf(i, steps))
    ensures After(w, MovesOf(i, steps)) == World(w.instances[i := s'], t')
    decreases |steps|
  {
    var run := MovesOf(i, steps);
    if steps == [] {
      assert w.instances[i := s'] == w.instances;
    } else {
      var v := MoveOn(w, run[0]);
      WalkIsRun(v, i, steps[1..], s', t');
      assert run[1..] == MovesOf(i, steps[1..]);
      assert v.instances[i := s'] == w.instances[i := s'];
    }
  }
}
