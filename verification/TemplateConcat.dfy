/** When evaluation distributes over concatenation: exactly when no match can
    begin in the left part and end in the right one. */
module TemplateConcat {
  import opened Wrappers
  import opened TemplateScan
  import opened TemplateSplit
  import opened TemplateEval

  /** The text at `x` could still become a match if more text followed. */
  predicate Straddles(a: string, x: nat) {
    && x < |a| && a[x] == '{'
    && (x + 1 == |a| ||
        (a[x + 1] == '{' &&
         var q := FirstClose(a, x + 2);
         q == |a| || (q == |a| - 1 && x + 2 < q)))
  }

  /** Nothing straddles the end of the text after the last expression. */
  ghost predicate Settled(t: Template) {
    match t
    case Plain(text) => forall x: nat | x < |text| :: !Straddles(text, x)
    case Hole(_, _, rest) => Settled(rest)
  }

  /** One template after the other, the texts between them merged. */
  function Append(t: Template, u: Template): Template {
    match t
    case Hole(before, body, rest) => Hole(before, body, Append(rest, u))
    case Plain(text) =>
      match u
      case Plain(more) => Plain(text + more)
      case Hole(before, body, rest) => Hole(text + before, body, rest)
  }

  /** A match of `a + b` that begins in `a` is one of `a`, or straddles. */
  lemma MatchSplits(a: string, b: string, x: nat)
    requires x < |a| && StartsMatch(a + b, x)
    ensures StartsMatch(a, x) || Straddles(a, x)
  {
    var s := a + b;
    var e := MatchEnd(s, x).value;
    if e <= |a| {
      assert forall k: nat | k < |a| :: a[k] == s[k];
      assert Matches(a, x, e);
    } else if x + 1 < |a| {
      assert s[x] == a[x] && s[x + 1] == a[x + 1];
      var q := FirstClose(a, x + 2);
      if q < |a| {
        assert s[q] == '}';
        assert q == e - 2;
      }
    } else {
      assert s[x] == a[x];
    }
  }

  /** Before a match of `a` nothing straddles. */
  lemma StraddleBeforeMatch(a: string, c: nat, e: nat, x: nat)
    requires Matches(a, c, e) && x < c
    ensures !Straddles(a, x)
  {
    assert a[e - 2] == '}' && x + 2 <= e - 2;
    assert FirstClose(a, x + 2) <= e - 2;
  }

  lemma FindExtends(a: string, b: string)
    requires FindFrom(a, 0).Some?
    ensures FindFrom(a + b, 0) == FindFrom(a, 0)
  {
    Found(a, 0);
    var m := FindFrom(a, 0).value;
    MatchExtends(a, b, m.0);
    forall x: nat | x < m.0 ensures !StartsMatch(a + b, x) {
      if StartsMatch(a + b, x) {
        MatchSplits(a, b, x);
        StraddleBeforeMatch(a, m.0, m.1, x);
      }
    }
    FindExactly(a + b, 0, Some(m));
  }

  /** With nothing to straddle, the search passes over `a`. */
  lemma FindPasses(a: string, b: string)
    requires FindFrom(a, 0).None? && forall x: nat | x < |a| :: !Straddles(a, x)
    ensures FindFrom(a + b, 0) == Shifted(FindFrom(b, 0), |a|)
  {
    Found(a, 0);
    FindShift(a, b, 0);
    Found(a + b, |a|);
    forall x: nat | x < |a| ensures !StartsMatch(a + b, x) {
      if StartsMatch(a + b, x) {
        MatchSplits(a, b, x);
      }
    }
    FindExactly(a + b, 0, FindFrom(a + b, |a|));
  }

  lemma SplitAcross(a: string, b: string)
    requires FindFrom(a, 0).None? && forall x: nat | x < |a| :: !Straddles(a, x)
    ensures Split(a + b) == Append(Plain(a), Split(b))
  {
    FindPasses(a, b);
    if FindFrom(b, 0).None? {
      PlainAcross(a, b);
    } else {
      var before, body, after := TakeFirst(b);
      SpanAcross(a, before, body);
      FoundAcross(a, before, Braced(body) + after, Span(a + before, body));
      SplitPieces(a + before, body, after);
    }
  }

  lemma PlainAcross(a: string, b: string)
    requires FindFrom(b, 0).None? && FindFrom(a + b, 0).None?
    ensures Split(a + b) == Plain(a + b) && Split(b) == Plain(b)
  {
  }

  lemma SpanAcross(a: string, before: string, body: string)
    ensures Shifted(Some(Span(before, body)), |a|) == Some(Span(a + before, body))
  {
  }

  lemma FoundAcross(a: string, before: string, u: string, m: (nat, nat))
    requires FindFrom(a + (before + u), 0) == Some(m)
    ensures FindFrom((a + before) + u, 0) == Some(m) && a + (before + u) == (a + before) + u
  {
    Associative(a, before, u);
  }

  /** The first match of `a` is that of `a + b`. */
  lemma SplitWithin(a: string, b: string, before: string, body: string, after: string)
    requires a == before + (Braced(body) + after) && FindFrom(a, 0) == Some(Span(before, body))
    ensures Split(a + b) == Hole(before, body, Split(after + b))
  {
    FindExtends(a, b);
    Associative(before, Braced(body) + after, b);
    Associative(Braced(body), after, b);
    SplitPieces(before, body, after + b);
  }

  lemma {:induction false} SplitConcat(a: string, b: string)
    requires Settled(Split(a))
    ensures Split(a + b) == Append(Split(a), Split(b))
    decreases |a|
  {
    if FindFrom(a, 0).Some? {
      var before, body, after := TakeFirst(a);
      SplitWithin(a, b, before, body, after);
      SplitConcat(after, b);
    } else {
      SplitAcross(a, b);
    }
  }

  // ---- and only then

  /** Text that completes what straddles at `x`. */
  function Completion(a: string, x: nat): string
    requires Straddles(a, x)
  {
    if x + 1 == |a| then "{x}}" else if FirstClose(a, x + 2) == |a| then "x}}" else "}"
  }

  lemma CompletionMatches(a: string, x: nat)
    requires Straddles(a, x)
    ensures StartsMatch(a + Completion(a, x), x)
  {
    var s := a + Completion(a, x);
    assert forall k: nat | k < |a| :: s[k] == a[k];
    assert Matches(s, x, |s|);
  }

  function Holes(t: Template): nat { if t.Plain? then 0 else 1 + Holes(t.rest) }

  lemma {:induction false} HolesAppend(t: Template, u: Template)
    ensures Holes(Append(t, u)) == Holes(t) + Holes(u)
  {
    if t.Hole? {
      HolesAppend(t.rest, u);
    }
  }

  lemma NothingShortMatches(s: string)
    requires |s| < 5
    ensures Split(s) == Plain(s)
  {
    FindExactly(s, 0, None);
  }

  /** Where something straddles, some continuation yields an expression that
      neither part has. */
  lemma {:induction false} StraddlingMakesMore(a: string) returns (b: string)
    requires !Settled(Split(a))
    ensures Holes(Split(a + b)) > Holes(Split(a)) + Holes(Split(b))
    decreases |a|
  {
    if FindFrom(a, 0).Some? {
      var before, body, after := TakeFirst(a);
      b := StraddlingMakesMore(after);
      SplitWithin(a, b, before, body, after);
    } else {
      assert Split(a) == Plain(a);
      var x: nat :| x < |a| && Straddles(a, x);
      b := Completion(a, x);
      CompletionMatches(a, x);
      Found(a + b, 0);
      NothingShortMatches(b);
    }
  }

  /** The split of `a + b` is that of `a` followed by that of `b`, for every `b`,
      if and only if nothing straddles the end of `a`. */
  lemma SplitConcatExactly(a: string)
    ensures (forall b :: Split(a + b) == Append(Split(a), Split(b))) <==> Settled(Split(a))
  {
    if Settled(Split(a)) {
      forall b ensures Split(a + b) == Append(Split(a), Split(b)) {
        SplitConcat(a, b);
      }
    } else {
      var b := StraddlingMakesMore(a);
      HolesAppend(Split(a), Split(b));
    }
  }

  // ---- evaluation

  lemma {:induction false} EvaluateAppend(f: string -> Result<string>, t: Template, u: Template)
    ensures Evaluate(f, Append(t, u)) == Then(Evaluate(f, t), Evaluate(f, u))
  {
    match t
    case Plain(text) =>
      if u.Hole? {
        ThenAssociative(Literally(text), Literally(u.before), Then(Replacement(f, u.body), Evaluate(f, u.rest)));
      }
    case Hole(before, body, rest) =>
      EvaluateAppend(f, rest, u);
      ThenAssociative(Replacement(f, body), Evaluate(f, rest), Evaluate(f, u));
      ThenAssociative(Literally(before), Then(Replacement(f, body), Evaluate(f, rest)), Evaluate(f, u));
  }

  lemma {:induction false} AllFail(t: Template)
    ensures |Evaluate((b: string) => Failure("no"), t).errors| == Holes(t)
  {
    if t.Hole? {
      AllFail(t.rest);
    }
  }

  ghost predicate Distributes(f: string -> Result<string>, a: string, b: string) {
    Evaluate(f, Split(a + b)) == Then(Evaluate(f, Split(a)), Evaluate(f, Split(b)))
  }

  /** A template can be evaluated in two parts, text after text and errors after
      errors, whatever the evaluator and the right part, if and only if nothing
      straddles the end of the left part. */
  lemma DistributesExactly(a: string)
    ensures (forall f: string -> Result<string>, b: string :: Distributes(f, a, b)) <==> Settled(Split(a))
  {
    if Settled(Split(a)) {
      forall f: string -> Result<string>, b: string ensures Distributes(f, a, b) {
        SplitConcat(a, b);
        EvaluateAppend(f, Split(a), Split(b));
      }
    } else {
      var b := StraddlingMakesMore(a);
      var f := (b: string) => Failure("no");
      AllFail(Split(a));
      AllFail(Split(b));
      AllFail(Split(a + b));
      assert !Distributes(f, a, b);
    }
  }

  /** At such a boundary the parts of a template can be evaluated separately. */
  lemma EvaluationDistributes(engine: Engine, data: Value, a: string, b: string)
    requires Settled(Split(a))
    ensures var r, x, y := Evaluated(engine, data, a + b), Evaluated(engine, data, a), Evaluated(engine, data, b);
            && (r.Success? <==> x.Success? && y.Success?)
            && (r.Success? ==> r.value == x.value + y.value)
  {
    SplitConcat(a, b);
    EvaluateAppend(Meaning(engine, data), Split(a), Split(b));
  }

  /** If both parts fail, the whole reports the errors of the left and then of the right. */
  lemma FailuresDistribute(engine: Engine, data: Value, a: string, b: string)
    requires Settled(Split(a))
    requires Evaluated(engine, data, a).Failure? && Evaluated(engine, data, b).Failure?
    ensures Evaluated(engine, data, a + b)
         == Failure(Evaluated(engine, data, a).error + "; "
                    + Join(Failures(Meaning(engine, data), Bodies(Split(b))), "; "))
  {
    var f := Meaning(engine, data);
    SplitConcat(a, b);
    EvaluateAppend(f, Split(a), Split(b));
    ErrorsInOrder(f, Split(b));
    var xs, ys, prefix := Evaluate(f, Split(a)).errors, Evaluate(f, Split(b)).errors, "template evaluation errors: ";
    JoinAppends(xs, ys, "; ");
    assert prefix + (Join(xs, "; ") + "; " + Join(ys, "; ")) == (prefix + Join(xs, "; ")) + "; " + Join(ys, "; ");
  }
}
