/** The outcome of a walk in closed form: every cell is rewritten once for each time
    it is visited, however many pointers lead to it. */
module StructPass {
  import opened Wrappers
  import opened TemplateEval
  import opened StructWalk
  import opened StructFrame
  import opened StructDepth

  /** `gs` is `fs` with each tagged field, also inside nested structs, replaced by
      its evaluation, and nothing else changed. */
  predicate Rewritten(rt: Runtime, data: Value, fs: seq<Field>, gs: seq<Field>)
    decreases fs, 0
  {
    |fs| == |gs| && (fs == [] || (RewrittenField(rt, data, fs[0], gs[0]) && Rewritten(rt, data, fs[1..], gs[1..])))
  }

  predicate RewrittenField(rt: Runtime, data: Value, f: Field, g: Field)
    decreases f, 1
  {
    if !f.exported then g == f
    else if f.tag != "" then Rewrite(rt, data, f) == (g, None)
    else if f.content.Struct? then
      && g.content.Struct? && g == f.(content := g.content)
      && Rewritten(rt, data, f.content.fields, g.content.fields)
    else g == f
  }

  /** The one struct a struct is rewritten to, if all its tagged fields evaluate. */
  function Pass(rt: Runtime, data: Value, fs: seq<Field>): Option<seq<Field>>
    decreases fs, 0
  {
    if fs == [] then Some([])
    else
      var first, rest := PassField(rt, data, fs[0]), Pass(rt, data, fs[1..]);
      if first.Some? && rest.Some? then Some([first.value] + rest.value) else None
  }

  function PassField(rt: Runtime, data: Value, f: Field): Option<Field>
    decreases f, 1
  {
    if !f.exported then Some(f)
    else if f.tag != "" then
      var r := Rewrite(rt, data, f);
      if r.1.None? then Some(r.0) else None
    else if f.content.Struct? then
      var inner := Pass(rt, data, f.content.fields);
      if inner.Some? then Some(f.(content := Struct(inner.value))) else None
    else Some(f)
  }

  lemma {:induction false} PassExactly(rt: Runtime, data: Value, fs: seq<Field>, gs: seq<Field>)
    ensures Pass(rt, data, fs) == Some(gs) <==> Rewritten(rt, data, fs, gs)
    decreases fs, 0
  {
    if fs != [] && gs != [] {
      PassFieldExactly(rt, data, fs[0], gs[0]);
      PassExactly(rt, data, fs[1..], gs[1..]);
      assert gs == [gs[0]] + gs[1..];
    }
  }

  lemma {:induction false} PassFieldExactly(rt: Runtime, data: Value, f: Field, g: Field)
    ensures PassField(rt, data, f) == Some(g) <==> RewrittenField(rt, data, f, g)
    decreases f, 1
  {
    if f.exported && f.tag == "" && f.content.Struct? && g.content.Struct? {
      PassExactly(rt, data, f.content.fields, g.content.fields);
    }
  }

  /** Rewritten `n` times over. */
  function Repeat(rt: Runtime, data: Value, fs: seq<Field>, n: nat): Option<seq<Field>>
    decreases n
  {
    if n == 0 then Some(fs)
    else match Pass(rt, data, fs)
      case None => None
      case Some(gs) => Repeat(rt, data, gs, n - 1)
  }

  lemma {:induction false} RepeatAdd(rt: Runtime, data: Value, fs: seq<Field>, m: nat, n: nat)
    ensures Repeat(rt, data, fs, m + n)
         == match Repeat(rt, data, fs, m) { case None => None case Some(gs) => Repeat(rt, data, gs, n) }
    decreases m
  {
    if m > 0 && Pass(rt, data, fs).Some? {
      RepeatAdd(rt, data, Pass(rt, data, fs).value, m - 1, n);
    }
  }

  /** Every cell can be rewritten as often as it is in `xs`. */
  ghost predicate CanRepeat(rt: Runtime, data: Value, cells: Cells, xs: multiset<nat>) {
    forall a | a in cells :: Repeat(rt, data, cells[a], xs[a]).Some?
  }

  /** And `after` is what comes of that. */
  ghost predicate Repeated(rt: Runtime, data: Value, cells: Cells, xs: multiset<nat>, after: Cells) {
    after.Keys == cells.Keys && forall a | a in cells :: Repeat(rt, data, cells[a], xs[a]) == Some(after[a])
  }

  lemma RepeatedThen(rt: Runtime, data: Value, l: Cells, xs: multiset<nat>, m: Cells, ys: multiset<nat>)
    requires Repeated(rt, data, l, xs, m)
    ensures CanRepeat(rt, data, l, xs + ys) <==> CanRepeat(rt, data, m, ys)
    ensures forall n :: Repeated(rt, data, m, ys, n) ==> Repeated(rt, data, l, xs + ys, n)
  {
    forall a | a in l
      ensures Repeat(rt, data, l[a], (xs + ys)[a]) == Repeat(rt, data, m[a], ys[a])
    {
      RepeatAdd(rt, data, l[a], xs[a], ys[a]);
    }
  }

  lemma RepeatedLess(rt: Runtime, data: Value, cells: Cells, xs: multiset<nat>, ys: multiset<nat>)
    requires CanRepeat(rt, data, cells, xs + ys)
    ensures CanRepeat(rt, data, cells, xs)
  {
    forall a | a in cells ensures Repeat(rt, data, cells[a], xs[a]).Some? {
      RepeatAdd(rt, data, cells[a], xs[a], ys[a]);
    }
  }

  function Count(cells: Cells, fields: seq<Field>, depth: nat): multiset<nat> {
    multiset(Visits(cells, fields, depth))
  }

  function CountOf(cells: Cells, f: Field, depth: nat): multiset<nat> {
    multiset(VisitsOf(cells, f, depth))
  }

  /** The outcome of a walk whose pointers fit. */
  ghost predicate Outcome(rt: Runtime, data: Value, cells: Cells, fields: seq<Field>, xs: multiset<nat>, r: Walked<seq<Field>>) {
    && (r.error.None? <==> Pass(rt, data, fields).Some? && CanRepeat(rt, data, cells, xs))
    && (r.error.None? ==> Pass(rt, data, fields) == Some(r.value) && Repeated(rt, data, cells, xs, r.cells))
  }

  ghost predicate FieldOutcome(rt: Runtime, data: Value, cells: Cells, f: Field, xs: multiset<nat>, r: Walked<Field>) {
    && (r.error.None? <==> PassField(rt, data, f).Some? && CanRepeat(rt, data, cells, xs))
    && (r.error.None? ==> PassField(rt, data, f) == Some(r.value) && Repeated(rt, data, cells, xs, r.cells))
  }

  lemma {:induction false} FitWalk(rt: Runtime, data: Value, cells: Cells, fields: seq<Field>, depth: nat)
    requires Fits(cells, fields, depth)
    ensures Outcome(rt, data, cells, fields, Count(cells, fields, depth), Walk(rt, data, cells, fields, depth))
    decreases depth, fields, 0
  {
    if fields != [] {
      var f, tail := fields[0], fields[1..];
      var first := WalkField(rt, data, cells, f, depth);
      FitWalkField(rt, data, cells, f, depth);
      RestUnaffected(rt, data, cells, f, tail, depth);
      FitWalk(rt, data, first.cells, tail, depth);
      var xs, ys := CountOf(cells, f, depth), Count(cells, tail, depth);
      assert Count(cells, fields, depth) == xs + ys && fields == [f] + tail;
      OutcomesJoin(rt, data, cells, f, xs, first, tail, ys, Walk(rt, data, first.cells, tail, depth));
    }
  }

  /** The first field and then, if it succeeds, the rest. */
  lemma OutcomesJoin(rt: Runtime, data: Value, cells: Cells, f: Field, xs: multiset<nat>, first: Walked<Field>,
                     tail: seq<Field>, ys: multiset<nat>, rest: Walked<seq<Field>>)
    requires FieldOutcome(rt, data, cells, f, xs, first) && Outcome(rt, data, first.cells, tail, ys, rest)
    ensures var r := if first.error.Some? then Walked(first.cells, [first.value] + tail, first.error)
                     else Walked(rest.cells, [first.value] + rest.value, rest.error);
            Outcome(rt, data, cells, [f] + tail, xs + ys, r)
  {
    assert ([f] + tail)[1..] == tail;
    if first.error.None? {
      RepeatedThen(rt, data, cells, xs, first.cells, ys);
    } else if CanRepeat(rt, data, cells, xs + ys) {
      RepeatedLess(rt, data, cells, xs, ys);
    }
  }

  lemma {:induction false} FitWalkField(rt: Runtime, data: Value, cells: Cells, f: Field, depth: nat)
    requires FitsField(cells, f, depth)
    ensures FieldOutcome(rt, data, cells, f, CountOf(cells, f, depth), WalkField(rt, data, cells, f, depth))
    decreases depth, f, 1
  {
    if f.exported && f.tag == "" {
      match f.content
      case Struct(fs) => FitWalk(rt, data, cells, fs, depth);
      case StructPtr(a) =>
        if a in cells {
          FitWalk(rt, data, cells, cells[a], depth - 1);
          NoCycle(cells, a, depth - 1);
          OneMoreVisit(rt, data, cells, a, Count(cells, cells[a], depth - 1), Walk(rt, data, cells, cells[a], depth - 1));
          assert VisitsOf(cells, f, depth) == [a] + Visits(cells, cells[a], depth - 1);
        }
      case _ =>
    }
  }

  /** A cell entered once, and whatever is visited below it. */
  lemma OneMoreVisit(rt: Runtime, data: Value, cells: Cells, a: nat, xs: multiset<nat>, r: Walked<seq<Field>>)
    requires a in cells && a !in xs && Outcome(rt, data, cells, cells[a], xs, r)
    ensures r.error.None? <==> CanRepeat(rt, data, cells, multiset{a} + xs)
    ensures r.error.None? ==> Repeated(rt, data, cells, multiset{a} + xs, r.cells[a := r.value])
  {
    var ys := multiset{a} + xs;
    RepeatOnce(rt, data, cells[a]);
    assert ys[a] == 1 && xs[a] == 0;
    assert forall b | b in cells && b != a :: ys[b] == xs[b];
    if CanRepeat(rt, data, cells, ys) {
      assert Repeat(rt, data, cells[a], ys[a]).Some?;
      forall b | b in cells ensures Repeat(rt, data, cells[b], xs[b]).Some? {
        assert Repeat(rt, data, cells[b], ys[b]).Some?;
      }
    }
    if r.error.None? {
      forall b | b in cells ensures Repeat(rt, data, cells[b], ys[b]) == Some(r.cells[a := r.value][b]) {
        assert Repeat(rt, data, cells[b], xs[b]) == Some(r.cells[b]);
      }
    }
  }

  lemma RepeatOnce(rt: Runtime, data: Value, fs: seq<Field>)
    ensures Repeat(rt, data, fs, 1) == Pass(rt, data, fs) && Repeat(rt, data, fs, 0) == Some(fs)
  {
    if Pass(rt, data, fs).Some? {
      assert Repeat(rt, data, Pass(rt, data, fs).value, 0) == Pass(rt, data, fs);
    }
  }

  /** A walk succeeds exactly when its depth covers the pointers, the struct can be
      rewritten, and every cell can be rewritten as often as it is visited; then
      this is what it has done. */
  lemma WalkExactly(rt: Runtime, data: Value, cells: Cells, fields: seq<Field>, depth: nat)
    ensures var r, xs := Walk(rt, data, cells, fields, depth), Count(cells, fields, depth);
            && (r.error.None? <==> Fits(cells, fields, depth) && Pass(rt, data, fields).Some? && CanRepeat(rt, data, cells, xs))
            && (r.error.None? ==> Rewritten(rt, data, fields, r.value) && Repeated(rt, data, cells, xs, r.cells))
  {
    if Fits(cells, fields, depth) {
      FitWalk(rt, data, cells, fields, depth);
      PassExactly(rt, data, fields, Walk(rt, data, cells, fields, depth).value);
    } else {
      UnfitFails(rt, data, cells, fields, depth);
    }
  }
}
