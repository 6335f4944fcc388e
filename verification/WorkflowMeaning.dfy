/** When a workflow succeeds, and what each step sees. */
module WorkflowMeaning {
  import opened Wrappers
  import opened Workflow

  /** The environment after the first `i` steps produced `vs`. */
  function EnvOf(steps: seq<Step>, vs: seq<string>, i: nat): Env
    requires i <= |steps| && i <= |vs|
  {
    if i == 0 then map[] else EnvOf(steps, vs, i - 1)[steps[i - 1].name := Output(vs[i - 1])]
  }

  /** Step `i` is valid, its name is new, and it executes to `vs[i]` when it sees
      the results of the steps before it and its own placeholder. */
  ghost predicate StepDone(steps: seq<Step>, exec: Execute, times: seq<nat>, vs: seq<string>, i: nat)
    requires i < |steps| && i < |vs|
  {
    && steps[i].name != "" && steps[i].wellFormed
    && (forall j | 0 <= j < i :: steps[j].name != steps[i].name)
    && exec(i, EnvOf(steps, vs, i)[steps[i].name := Placeholder], At(times, i)) == Done(vs[i])
  }

  ghost predicate AllDone(steps: seq<Step>, exec: Execute, times: seq<nat>, vs: seq<string>) {
    |vs| <= |steps| && forall i | 0 <= i < |vs| :: StepDone(steps, exec, times, vs, i)
  }

  lemma {:induction false} EnvKeys(steps: seq<Step>, vs: seq<string>, i: nat, key: string)
    requires i <= |steps| && i <= |vs|
    ensures key in EnvOf(steps, vs, i) <==> exists j :: 0 <= j < i && steps[j].name == key
  {
    if i > 0 {
      EnvKeys(steps, vs, i - 1, key);
      assert steps[i - 1].name == key ==> 0 <= i - 1 < i && steps[i - 1].name == key;
    }
  }

  lemma {:induction false} EnvPrefix(steps: seq<Step>, vs: seq<string>, ws: seq<string>, i: nat)
    requires i <= |steps| && i <= |vs| && i <= |ws| && forall j | 0 <= j < i :: vs[j] == ws[j]
    ensures EnvOf(steps, vs, i) == EnvOf(steps, ws, i)
  {
    if i > 0 {
      EnvPrefix(steps, vs, ws, i - 1);
    }
  }

  /** Each name is bound to its own step's result. */
  lemma {:induction false} EnvContents(steps: seq<Step>, vs: seq<string>, i: nat, j: nat)
    requires j < i <= |steps| && i <= |vs|
    requires forall a, b | 0 <= a < b < i :: steps[a].name != steps[b].name
    ensures steps[j].name in EnvOf(steps, vs, i) && EnvOf(steps, vs, i)[steps[j].name] == Output(vs[j])
  {
    if j < i - 1 {
      EnvContents(steps, vs, i - 1, j);
    }
  }

  lemma PlaceholderReplaced(env: Env, key: string, v: string)
    ensures env[key := Placeholder][key := Output(v)] == env[key := Output(v)]
  {
  }

  lemma DonePrefix(steps: seq<Step>, exec: Execute, times: seq<nat>, vs: seq<string>, v: string)
    requires AllDone(steps, exec, times, vs) && |vs| < |steps| && StepDone(steps, exec, times, vs + [v], |vs|)
    ensures AllDone(steps, exec, times, vs + [v])
  {
    forall i | 0 <= i < |vs| ensures StepDone(steps, exec, times, vs + [v], i) {
      assert StepDone(steps, exec, times, vs, i);
      EnvPrefix(steps, vs, vs + [v], i);
    }
  }

  /** A straight run that succeeds has done every step. */
  lemma {:induction false} SuccessMeansDone(steps: seq<Step>, exec: Execute, times: seq<nat>, vs: seq<string>)
    returns (ws: seq<string>)
    requires AllDone(steps, exec, times, vs)
    requires Straight(steps, exec, times, |vs|, EnvOf(steps, vs, |vs|)).Success?
    ensures AllDone(steps, exec, times, ws) && |ws| == |steps|
    ensures Straight(steps, exec, times, |vs|, EnvOf(steps, vs, |vs|)) == Success(EnvOf(steps, ws, |ws|))
    decreases |steps| - |vs|
  {
    var i := |vs|;
    if i == |steps| {
      ws := vs;
    } else {
      var env, name := EnvOf(steps, vs, i), steps[i].name;
      EnvKeys(steps, vs, i, name);
      var v := exec(i, env[name := Placeholder], At(times, i)).value;
      EnvPrefix(steps, vs, vs + [v], i);
      assert StepDone(steps, exec, times, vs + [v], i);
      DonePrefix(steps, exec, times, vs, v);
      PlaceholderReplaced(env, name, v);
      ws := SuccessMeansDone(steps, exec, times, vs + [v]);
    }
  }

  /** Doing every step makes the straight run succeed. */
  lemma {:induction false} DoneMeansSuccess(steps: seq<Step>, exec: Execute, times: seq<nat>, vs: seq<string>, i: nat)
    requires AllDone(steps, exec, times, vs) && i <= |vs| == |steps|
    ensures Straight(steps, exec, times, i, EnvOf(steps, vs, i)) == Success(EnvOf(steps, vs, |vs|))
    decreases |steps| - i
  {
    if i < |steps| {
      assert StepDone(steps, exec, times, vs, i);
      EnvKeys(steps, vs, i, steps[i].name);
      PlaceholderReplaced(EnvOf(steps, vs, i), steps[i].name, vs[i]);
      DoneMeansSuccess(steps, exec, times, vs, i + 1);
    }
  }

  /** A workflow succeeds exactly when all its steps are valid, their names are
      distinct and every execution succeeds on what the steps before it left; the
      result then binds each name to its step's value. */
  lemma SuccessExactly(steps: seq<Step>, exec: Execute, times: seq<nat>, env: Env)
    ensures Straight(steps, exec, times, 0, map[]) == Success(env)
            <==> exists vs :: |vs| == |steps| && AllDone(steps, exec, times, vs) && env == EnvOf(steps, vs, |vs|)
  {
    assert EnvOf(steps, [], 0) == map[];
    if Straight(steps, exec, times, 0, map[]) == Success(env) {
      var vs := SuccessMeansDone(steps, exec, times, []);
    }
    forall vs | |vs| == |steps| && AllDone(steps, exec, times, vs)
      ensures Straight(steps, exec, times, 0, map[]) == Success(EnvOf(steps, vs, |vs|))
    {
      assert EnvOf(steps, vs, 0) == map[];
      DoneMeansSuccess(steps, exec, times, vs, 0);
    }
  }

  /** Step `i` ends the run with `error`: it is refused, or it fails on what the steps before it left. */
  ghost predicate StepStops(steps: seq<Step>, exec: Execute, times: seq<nat>, vs: seq<string>, i: nat, error: string)
    requires i < |steps| && i <= |vs|
  {
    var step := steps[i];
    if step.name == "" then error == "missing name"
    else if !step.wellFormed then error == "invalid step"
    else if exists j :: 0 <= j < i && steps[j].name == step.name then error == "duplicate step name: " + step.name
    else exec(i, EnvOf(steps, vs, i)[step.name := Placeholder], At(times, i)) == Failed(error)
  }

  /** A straight run that fails has done the steps before one that stops it. */
  lemma {:induction false} FailureMeansStopped(steps: seq<Step>, exec: Execute, times: seq<nat>, vs: seq<string>)
    returns (ws: seq<string>)
    requires AllDone(steps, exec, times, vs)
    requires Straight(steps, exec, times, |vs|, EnvOf(steps, vs, |vs|)).Failure?
    ensures AllDone(steps, exec, times, ws) && |ws| < |steps|
    ensures StepStops(steps, exec, times, ws, |ws|, Straight(steps, exec, times, |vs|, EnvOf(steps, vs, |vs|)).error)
    decreases |steps| - |vs|
  {
    var i := |vs|;
    var env, name := EnvOf(steps, vs, i), steps[i].name;
    EnvKeys(steps, vs, i, name);
    ws := vs;
    if Validate(steps[i], env).Success? {
      var outcome := exec(i, env[name := Placeholder], At(times, i));
      if outcome.Done? {
        EnvPrefix(steps, vs, vs + [outcome.value], i);
        assert StepDone(steps, exec, times, vs + [outcome.value], i);
        DonePrefix(steps, exec, times, vs, outcome.value);
        PlaceholderReplaced(env, name, outcome.value);
        ws := FailureMeansStopped(steps, exec, times, vs + [outcome.value]);
      }
    }
  }

  lemma {:induction false} StoppedMeansFailure(steps: seq<Step>, exec: Execute, times: seq<nat>, vs: seq<string>, error: string, i: nat)
    requires AllDone(steps, exec, times, vs) && i <= |vs| < |steps| && StepStops(steps, exec, times, vs, |vs|, error)
    ensures Straight(steps, exec, times, i, EnvOf(steps, vs, i)) == Failure(error)
    decreases |steps| - i
  {
    EnvKeys(steps, vs, i, steps[i].name);
    if i < |vs| {
      assert StepDone(steps, exec, times, vs, i);
      PlaceholderReplaced(EnvOf(steps, vs, i), steps[i].name, vs[i]);
      StoppedMeansFailure(steps, exec, times, vs, error, i + 1);
    }
  }

  /** A workflow fails exactly when the steps before some step are done and that one is
      refused, for its name, its options or a name used before, or its execution
      fails; and with that error. */
  lemma FailureExactly(steps: seq<Step>, exec: Execute, times: seq<nat>, error: string)
    ensures Straight(steps, exec, times, 0, map[]) == Failure(error)
            <==> exists vs :: |vs| < |steps| && AllDone(steps, exec, times, vs) && StepStops(steps, exec, times, vs, |vs|, error)
  {
    assert EnvOf(steps, [], 0) == map[];
    if Straight(steps, exec, times, 0, map[]) == Failure(error) {
      var vs := FailureMeansStopped(steps, exec, times, []);
    }
    forall vs | |vs| < |steps| && AllDone(steps, exec, times, vs) && StepStops(steps, exec, times, vs, |vs|, error)
      ensures Straight(steps, exec, times, 0, map[]) == Failure(error)
    {
      assert EnvOf(steps, vs, 0) == map[];
      StoppedMeansFailure(steps, exec, times, vs, error, 0);
    }
  }

  /** A session after any crashes, with a budget for the steps left, ends; and it ends
      in `env` exactly when all steps are valid, distinctly named and execute, each on
      what those before it left, at the times recorded, to what `env` binds, and in
      `error` exactly when that stops the first step not done so. */
  lemma SessionExactly(steps: seq<Step>, exec: Execute, budgets: seq<nat>, budget: nat, env: Env, error: string)
    requires |Sessions(steps, exec, budgets).log| + budget / 2 >= |steps|
    ensures var (ended, k) := Run(steps, exec, 0, map[], Sessions(steps, exec, budgets), budget);
            && ended.Finished?
            && (ended == Finished(Success(env))
                <==> exists vs :: |vs| == |steps| && AllDone(steps, exec, k.times, vs) && env == EnvOf(steps, vs, |vs|))
            && (ended == Finished(Failure(error))
                <==> exists vs :: |vs| < |steps| && AllDone(steps, exec, k.times, vs)
                                  && StepStops(steps, exec, k.times, vs, |vs|, error))
  {
    var (ended, k) := Run(steps, exec, 0, map[], Sessions(steps, exec, budgets), budget);
    RunFinishes(steps, exec, Sessions(steps, exec, budgets), budget);
    CrashReplay(steps, exec, budgets, budget);
    SuccessExactly(steps, exec, k.times, env);
    FailureExactly(steps, exec, k.times, error);
  }

  /** A recorded failure is the end: it is the last record, and no later session
      executes or records anything. */
  lemma {:induction false} FailureIsFinal(steps: seq<Step>, exec: Execute, i: nat, env: Env, j: Journal, f: nat, budget: nat)
    requires i <= f < |j.log| && i <= |steps| && Faithful(steps, exec, i, env, j) && j.log[f].SavedError?
    ensures f == |j.log| - 1
    ensures Run(steps, exec, i, env, j, budget) == (Finished(Failure(j.log[f].error)), j)
    decreases |steps| - i
  {
    if i < f {
      FailureIsFinal(steps, exec, i + 1, j.log[i].env, j, f, budget);
    }
  }

  lemma NothingRunsAfterFailure(steps: seq<Step>, exec: Execute, budgets: seq<nat>, f: nat, budget: nat)
    requires f < |Sessions(steps, exec, budgets).log| && Sessions(steps, exec, budgets).log[f].SavedError?
    ensures var j := Sessions(steps, exec, budgets);
            f == |j.log| - 1 && Run(steps, exec, 0, map[], j, budget) == (Finished(Failure(j.log[f].error)), j)
  {
    SessionsFaithful(steps, exec, budgets);
    FailureIsFinal(steps, exec, 0, map[], Sessions(steps, exec, budgets), f, budget);
  }
}
