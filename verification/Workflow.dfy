/** The workflow runner: steps in order over one growing environment, each one's
    output recorded durably before the next begins. */
module Workflow {
  import opened Wrappers

  /** What a step's name is bound to: a placeholder until the step has run. */
  datatype Entry = Placeholder | Output(value: string)

  type Env = map<string, Entry>

  /** `wellFormed` is the outcome of the step's own checks of its options. */
  datatype Step = Step(kind: string, name: string, wellFormed: bool)

  datatype Outcome = Done(value: string) | Failed(error: string)

  /** The effect of executing a step: which step, the environment it sees, and
      when.  Executing it again at another time may give something else. */
  type Execute = (nat, Env, nat) -> Outcome

  /** A recorded step result. */
  datatype Record = Saved(env: Env) | SavedError(error: string)

  /** The durable records, and a history: when the recorded executions took
      place, the current time, and which step each execution was of. */
  datatype Journal = Journal(log: seq<Record>, times: seq<nat>, clock: nat, executed: seq<nat>)

  /** A run ends by itself, or crashes. */
  datatype Ended = Finished(result: Result<Env>) | Crashed

  /** Env.new */
  function NewKey(env: Env, key: string): Result<Env> {
    if key in env then Failure("duplicate step name: " + key) else Success(env[key := Placeholder])
  }

  function Validate(step: Step, env: Env): Result<Env> {
    if step.name == "" then Failure("missing name")
    else if !step.wellFormed then Failure("invalid step")
    else NewKey(env, step.name)
  }

  /** An Execute writes only its own name. */
  function RecordOf(step: Step, env: Env, outcome: Outcome): Record {
    match outcome
    case Done(v) => Saved(env[step.name := Output(v)])
    case Failed(e) => SavedError(e)
  }

  /** The run from step `i` on, with a journal to replay from.  `budget` counts
      the executions and recordings left before a crash, so that a crash can fall
      before an execution, between it and its recording, or after. */
  function Run(steps: seq<Step>, exec: Execute, i: nat, env: Env, j: Journal, budget: nat): (Ended, Journal)
    requires i <= |steps|
    decreases |steps| - i
  {
    if i == |steps| then (Finished(Success(env)), j)
    else match Validate(steps[i], env)
      case Failure(e) => (Finished(Failure(e)), j)
      case Success(ready) =>
        if i < |j.log| then
          (match j.log[i]
           case Saved(next) => Run(steps, exec, i + 1, next, j, budget)
           case SavedError(e) => (Finished(Failure(e)), j))
        else if budget == 0 then (Crashed, j)
        else
          var outcome := exec(i, ready, j.clock);
          var ran := j.(clock := j.clock + 1, executed := j.executed + [i]);
          if budget == 1 then (Crashed, ran)
          else
            var r := RecordOf(steps[i], ready, outcome);
            var kept := ran.(log := j.log + [r], times := j.times + [j.clock]);
            match r
            case Saved(next) => Run(steps, exec, i + 1, next, kept, budget - 2)
            case SavedError(e) => (Finished(Failure(e)), kept)
  }

  class Environment {
    var entries: Env

    constructor (entries: Env)
      ensures this.entries == entries
    {
      this.entries := entries;
    }

    method New(key: string) returns (error: Option<string>)
      modifies this
      ensures error.None? ==> key !in old(entries) && entries == old(entries)[key := Placeholder]
      ensures error.Some? ==> key in old(entries) && entries == old(entries)
                              && error.value == "duplicate step name: " + key
    {
      if key in entries {
        return Some("duplicate step name: " + key);
      }
      entries := entries[key := Placeholder];
      return None;
    }

    method ValidateStep(step: Step) returns (error: Option<string>)
      modifies this
      ensures match Validate(step, old(entries))
              case Success(ready) => error.None? && entries == ready
              case Failure(e) => error == Some(e) && entries == old(entries)
    {
      if step.name == "" {
        return Some("missing name");
      }
      if !step.wellFormed {
        return Some("invalid step");
      }
      error := New(step.name);
    }
  }

  class Store {
    var journal: Journal

    constructor ()
      ensures journal == Journal([], [], 0, [])
    {
      journal := Journal([], [], 0, []);
    }
  }

  /** The step loop. */
  method Steps(steps: seq<Step>, exec: Execute, store: Store, budget: nat) returns (ended: Ended)
    modifies store
    ensures (ended, store.journal) == Run(steps, exec, 0, map[], old(store.journal), budget)
    ensures |old(store.journal).log| + budget / 2 >= |steps| ==> ended.Finished?
  {
    if |store.journal.log| + budget / 2 >= |steps| {
      RunFinishes(steps, exec, store.journal, budget);
    }
    ghost var whole := Run(steps, exec, 0, map[], store.journal, budget);
    var env := new Environment(map[]);
    var left := budget;
    var i := 0;
    while i < |steps|
      invariant 0 <= i <= |steps| && fresh(env)
      invariant whole == Run(steps, exec, i, env.entries, store.journal, left)
    {
      var error := env.ValidateStep(steps[i]);
      if error.Some? {
        return Finished(Failure(error.value));
      }
      var j := store.journal;
      if i < |j.log| {
        match j.log[i] {
          case Saved(next) => env := new Environment(next);
          case SavedError(e) => return Finished(Failure(e));
        }
      } else {
        if left == 0 {
          return Crashed;
        }
        var ready := env.entries;
        var outcome := exec(i, ready, j.clock);
        store.journal := j.(clock := j.clock + 1, executed := j.executed + [i]);
        if left == 1 {
          return Crashed;
        }
        var r := RecordOf(steps[i], ready, outcome);
        store.journal := store.journal.(log := j.log + [r], times := j.times + [j.clock]);
        left := left - 2;
        match outcome {
          case Done(v) => env.entries := ready[steps[i].name := Output(v)];
          case Failed(e) => return Finished(Failure(e));
        }
      }
      i := i + 1;
    }
    return Finished(Success(env.entries));
  }

  // ---- the run without journal or crash

  /** When step `i` was executed for good. */
  function At(times: seq<nat>, i: nat): nat { if i < |times| then times[i] else 0 }

  function Straight(steps: seq<Step>, exec: Execute, times: seq<nat>, i: nat, env: Env): Result<Env>
    requires i <= |steps|
    decreases |steps| - i
  {
    if i == |steps| then Success(env)
    else match Validate(steps[i], env)
      case Failure(e) => Failure(e)
      case Success(ready) =>
        match RecordOf(steps[i], ready, exec(i, ready, At(times, i)))
        case Saved(next) => Straight(steps, exec, times, i + 1, next)
        case SavedError(e) => Failure(e)
  }

  /** The records from step `i` on are those of executions at the recorded times. */
  ghost predicate Faithful(steps: seq<Step>, exec: Execute, i: nat, env: Env, j: Journal)
    requires i <= |steps|
    decreases |steps| - i
  {
    && |j.times| == |j.log| <= |steps|
    && (i < |j.log| ==>
          match Validate(steps[i], env)
          case Failure(_) => false
          case Success(ready) =>
            && j.log[i] == RecordOf(steps[i], ready, exec(i, ready, j.times[i]))
            && (match j.log[i]
                case Saved(next) => Faithful(steps, exec, i + 1, next, j)
                case SavedError(_) => |j.log| == i + 1))
  }

  /** Consecutive steps. */
  function Range(a: nat, b: nat): seq<nat>
    requires a <= b
    decreases b - a
  {
    if a == b then [] else [a] + Range(a + 1, b)
  }

  /** How a session extends the journal: it executes, in order and once each,
      steps that had no record, and records all of them but perhaps the last. */
  ghost predicate Extends(j: Journal, k: Journal) {
    && j.log <= k.log && j.times <= k.times
    && exists b: nat :: |j.log| <= b && k.executed == j.executed + Range(|j.log|, b)
                        && (b == |k.log| || b == |k.log| + 1)
  }

  lemma RangeCons(a: nat, b: nat, xs: seq<nat>)
    requires a < b
    ensures xs + Range(a, b) == (xs + [a]) + Range(a + 1, b)
  {
    assert xs + ([a] + Range(a + 1, b)) == (xs + [a]) + Range(a + 1, b);
  }

  /** What one session, crashed or not, does to the journal. */
  lemma {:induction false} RunExtends(steps: seq<Step>, exec: Execute, i: nat, env: Env, j: Journal, budget: nat)
    requires i <= |steps| && i <= |j.log|
    ensures Extends(j, Run(steps, exec, i, env, j, budget).1)
    decreases |steps| - i
  {
    assert Range(|j.log|, |j.log|) == [] && j.executed + [] == j.executed;
    if i < |steps| && Validate(steps[i], env).Success? {
      var ready := Validate(steps[i], env).value;
      if i < |j.log| {
        if j.log[i].Saved? {
          RunExtends(steps, exec, i + 1, j.log[i].env, j, budget);
        }
      } else if budget > 0 {
        RangeCons(i, i + 1, j.executed);
        assert Range(i + 1, i + 1) == [] && (j.executed + [i]) + [] == j.executed + [i];
        var r := RecordOf(steps[i], ready, exec(i, ready, j.clock));
        if budget > 1 && r.Saved? {
          var kept := j.(clock := j.clock + 1, executed := j.executed + [i],
                         log := j.log + [r], times := j.times + [j.clock]);
          RunExtends(steps, exec, i + 1, r.env, kept, budget - 2);
          ExtendsBy(j, kept, Run(steps, exec, i + 1, r.env, kept, budget - 2).1);
        }
      }
    }
  }

  lemma ExtendsBy(j: Journal, kept: Journal, k: Journal)
    requires Extends(kept, k) && |kept.log| == |j.log| + 1 && j.log <= kept.log && j.times <= kept.times
    requires kept.executed == j.executed + [|j.log|]
    ensures Extends(j, k)
  {
    var b: nat :| |kept.log| <= b && k.executed == kept.executed + Range(|kept.log|, b) && (b == |k.log| || b == |k.log| + 1);
    RangeCons(|j.log|, b, j.executed);
  }

  /** Replaying and executing agree with one straight run at the recorded times,
      and the records stay faithful, wherever the session stops. */
  lemma {:induction false} RunIsStraight(steps: seq<Step>, exec: Execute, i: nat, env: Env, j: Journal, budget: nat)
    requires i <= |steps| && i <= |j.log| && Faithful(steps, exec, i, env, j)
    ensures var (ended, k) := Run(steps, exec, i, env, j, budget);
            && Faithful(steps, exec, i, env, k)
            && (ended.Finished? ==> ended.result == Straight(steps, exec, k.times, i, env))
    decreases |steps| - i
  {
    RunExtends(steps, exec, i, env, j, budget);
    if i < |steps| && Validate(steps[i], env).Success? {
      var ready := Validate(steps[i], env).value;
      if i < |j.log| {
        if j.log[i].Saved? {
          RunIsStraight(steps, exec, i + 1, j.log[i].env, j, budget);
        }
      } else if budget > 1 {
        var r := RecordOf(steps[i], ready, exec(i, ready, j.clock));
        var kept := j.(clock := j.clock + 1, executed := j.executed + [i],
                       log := j.log + [r], times := j.times + [j.clock]);
        if r.Saved? {
          RunIsStraight(steps, exec, i + 1, r.env, kept, budget - 2);
          RunExtends(steps, exec, i + 1, r.env, kept, budget - 2);
        }
      }
    }
  }

  /** The journal after a sequence of sessions, each starting over from the first step. */
  function Sessions(steps: seq<Step>, exec: Execute, budgets: seq<nat>): Journal {
    if budgets == [] then Journal([], [], 0, [])
    else Run(steps, exec, 0, map[], Sessions(steps, exec, budgets[..|budgets| - 1]), budgets[|budgets| - 1]).1
  }

  lemma {:induction false} SessionsFaithful(steps: seq<Step>, exec: Execute, budgets: seq<nat>)
    ensures Faithful(steps, exec, 0, map[], Sessions(steps, exec, budgets))
  {
    if budgets != [] {
      var n := |budgets| - 1;
      SessionsFaithful(steps, exec, budgets[..n]);
      RunIsStraight(steps, exec, 0, map[], Sessions(steps, exec, budgets[..n]), budgets[n]);
    }
  }

  /** Crash and replay: after any number of sessions crashed anywhere, a session
      that ends gives the result of one straight run in which every recorded step
      was executed at its recorded time; and it executes no recorded step again. */
  lemma CrashReplay(steps: seq<Step>, exec: Execute, budgets: seq<nat>, budget: nat)
    ensures var j := Sessions(steps, exec, budgets);
            var (ended, k) := Run(steps, exec, 0, map[], j, budget);
            && (ended.Finished? ==> ended.result == Straight(steps, exec, k.times, 0, map[]))
            && Extends(j, k)
  {
    var j := Sessions(steps, exec, budgets);
    SessionsFaithful(steps, exec, budgets);
    RunIsStraight(steps, exec, 0, map[], j, budget);
    RunExtends(steps, exec, 0, map[], j, budget);
  }

  /** A session that crashes has used its budget up: every two units of it have
      bought one more record, and an odd one an execution that is lost. */
  lemma {:induction false} CrashUsesBudget(steps: seq<Step>, exec: Execute, i: nat, env: Env, j: Journal, budget: nat)
    requires i <= |steps| && i <= |j.log| && Run(steps, exec, i, env, j, budget).0.Crashed?
    ensures var k := Run(steps, exec, i, env, j, budget).1;
            && |k.log| == |j.log| + budget / 2 && |k.log| < |steps|
            && |k.executed| == |j.executed| + (budget + 1) / 2
    decreases |steps| - i
  {
    var ready := Validate(steps[i], env).value;
    if i < |j.log| {
      CrashUsesBudget(steps, exec, i + 1, j.log[i].env, j, budget);
    } else if budget >= 2 {
      var r := RecordOf(steps[i], ready, exec(i, ready, j.clock));
      var kept := j.(clock := j.clock + 1, executed := j.executed + [i],
                     log := j.log + [r], times := j.times + [j.clock]);
      CrashUsesBudget(steps, exec, i + 1, r.env, kept, budget - 2);
    }
  }

  /** So a session with a budget for the steps that have no record finishes, and
      sessions that each record something come to an end. */
  lemma RunFinishes(steps: seq<Step>, exec: Execute, j: Journal, budget: nat)
    requires |j.log| + budget / 2 >= |steps|
    ensures Run(steps, exec, 0, map[], j, budget).0.Finished?
  {
    if Run(steps, exec, 0, map[], j, budget).0.Crashed? {
      CrashUsesBudget(steps, exec, 0, map[], j, budget);
    }
  }

  /** If executions do not depend on time, the times do not matter: every session
      that ends gives the result of the run that never crashed. */
  lemma {:induction false} TimesDoNotMatter(steps: seq<Step>, exec: Execute, s: seq<nat>, t: seq<nat>, i: nat, env: Env)
    requires i <= |steps| && forall k: nat, e: Env, x: nat, y: nat :: exec(k, e, x) == exec(k, e, y)
    ensures Straight(steps, exec, s, i, env) == Straight(steps, exec, t, i, env)
    decreases |steps| - i
  {
    if i < |steps| && Validate(steps[i], env).Success? {
      var ready := Validate(steps[i], env).value;
      assert exec(i, ready, At(s, i)) == exec(i, ready, At(t, i));
      var r := RecordOf(steps[i], ready, exec(i, ready, At(s, i)));
      if r.Saved? {
        TimesDoNotMatter(steps, exec, s, t, i + 1, r.env);
      }
    }
  }

  lemma ReplayEqualsUncrashed(steps: seq<Step>, exec: Execute, budgets: seq<nat>, budget: nat)
    requires forall k: nat, e: Env, x: nat, y: nat :: exec(k, e, x) == exec(k, e, y)
    ensures var ended := Run(steps, exec, 0, map[], Sessions(steps, exec, budgets), budget).0;
            ended.Finished? ==> ended.result == Straight(steps, exec, [], 0, map[])
  {
    CrashReplay(steps, exec, budgets, budget);
    var k := Run(steps, exec, 0, map[], Sessions(steps, exec, budgets), budget).1;
    TimesDoNotMatter(steps, exec, k.times, [], 0, map[]);
  }

  /** A finished workflow stays finished: running it again executes nothing,
      records nothing, and gives the same result, however soon it might crash. */
  lemma {:induction false} FinishedIsStable(steps: seq<Step>, exec: Execute, i: nat, env: Env, j: Journal, budget: nat, again: nat)
    requires i <= |steps| && i <= |j.log| && Run(steps, exec, i, env, j, budget).0.Finished?
    ensures var (ended, k) := Run(steps, exec, i, env, j, budget);
            Run(steps, exec, i, env, k, again) == (ended, k)
    decreases |steps| - i
  {
    RunExtends(steps, exec, i, env, j, budget);
    if i < |steps| && Validate(steps[i], env).Success? {
      var ready := Validate(steps[i], env).value;
      if i < |j.log| {
        if j.log[i].Saved? {
          FinishedIsStable(steps, exec, i + 1, j.log[i].env, j, budget, again);
        }
      } else {
        var r := RecordOf(steps[i], ready, exec(i, ready, j.clock));
        var kept := j.(clock := j.clock + 1, executed := j.executed + [i],
                       log := j.log + [r], times := j.times + [j.clock]);
        if r.Saved? {
          FinishedIsStable(steps, exec, i + 1, r.env, kept, budget - 2, again);
          RunExtends(steps, exec, i + 1, r.env, kept, budget - 2);
        }
      }
    }
  }
}
