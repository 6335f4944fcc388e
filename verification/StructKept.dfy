/** When a walk leaves the caller's memory as it was, for every evaluator. */
module StructKept {
  import opened Wrappers
  import opened TemplateEval
  import opened StructWalk
  import opened StructDepth
  import opened StructSpots
  import opened StructStir

  /** Up to the first rejected field, no tagged field in a cell can be changed. */
  predicate Harmless(cells: Cells, root: seq<Field>, xs: seq<Spot>) {
    xs == [] ||
    match LookAt(cells, root, xs[0])
    case None => Harmless(cells, root, xs[1..])
    case Some(f) => Rejected(f) || ((xs[0].cell.Some? ==> Fixed(f)) && Harmless(cells, root, xs[1..]))
  }

  /** The same spots, and the same ones rejected. */
  ghost predicate SameKinds(cells: Cells, root: seq<Field>, cells': Cells, root': seq<Field>) {
    forall x: Spot ::
      match LookAt(cells, root, x)
      case None => LookAt(cells', root', x).None?
      case Some(f) =>
        && LookAt(cells', root', x).Some? && LookAt(cells', root', x).value.exported
        && LookAt(cells', root', x).value.tag == f.tag && Rejected(LookAt(cells', root', x).value) == Rejected(f)
  }

  lemma KindsAfter(rt: Runtime, data: Value, l: Cells, r: seq<Field>, cells: Cells, root: seq<Field>, x: Spot)
    requires SameKinds(l, r, cells, root) && LookAt(cells, root, x).Some?
    ensures var next := PutAt(cells, root, x, Rewrite(rt, data, LookAt(cells, root, x).value).0);
            SameKinds(l, r, next.0, next.1)
  {
    var f := LookAt(cells, root, x).value;
    var g := Rewrite(rt, data, f).0;
    KindKept(rt, data, f);
    assert LookAt(l, r, x).Some?;
    var next := PutAt(cells, root, x, g);
    forall y: Spot
      ensures match LookAt(l, r, y)
              case None => LookAt(next.0, next.1, y).None?
              case Some(h) =>
                && LookAt(next.0, next.1, y).Some? && LookAt(next.0, next.1, y).value.exported
                && LookAt(next.0, next.1, y).value.tag == h.tag && Rejected(LookAt(next.0, next.1, y).value) == Rejected(h)
    {
      LookAtAfterPutAt(cells, root, x, g, y);
    }
  }

  lemma {:induction false} HarmlessKeeps(rt: Runtime, data: Value, cells: Cells, root: seq<Field>, now: seq<Field>, xs: seq<Spot>)
    requires Harmless(cells, root, xs) && SameKinds(cells, root, cells, now)
    ensures Play(rt, data, cells, now, xs).cells == cells
    decreases |xs|
  {
    if xs != [] {
      var x := xs[0];
      match LookAt(cells, root, x)
      case None => HarmlessKeeps(rt, data, cells, root, now, xs[1..]);
      case Some(f) =>
        var g := LookAt(cells, now, x).value;
        if Rejected(g) {
          RejectedFails(rt, data, g);
        } else {
          KindsAfter(rt, data, cells, root, cells, now, x);
          var next := PutAt(cells, now, x, Rewrite(rt, data, g).0);
          if x.cell.Some? {
            FixedStays(rt, data, f);
            PutSame(cells[x.cell.value], x.path);
            assert cells[x.cell.value := cells[x.cell.value]] == cells;
          }
          HarmlessKeeps(rt, data, cells, root, next.1, xs[1..]);
        }
    }
  }

  /** Where memory can change: a spot in a cell, neither rejected nor fixed, with
      nothing rejected before it. */
  ghost predicate Exposed(cells: Cells, root: seq<Field>, xs: seq<Spot>, k: nat) {
    && k < |xs| && xs[k].cell.Some? && LookAt(cells, root, xs[k]).Some?
    && !Fixed(LookAt(cells, root, xs[k]).value)
    && forall j | 0 <= j <= k && LookAt(cells, root, xs[j]).Some? :: !Rejected(LookAt(cells, root, xs[j]).value)
  }

  lemma {:induction false} HarmfulExposed(cells: Cells, root: seq<Field>, xs: seq<Spot>) returns (k: nat)
    requires !Harmless(cells, root, xs)
    ensures Exposed(cells, root, xs, k)
    decreases |xs|
  {
    var f := LookAt(cells, root, xs[0]);
    if f.Some? && xs[0].cell.Some? && !Fixed(f.value) {
      k := 0;
    } else {
      var j := HarmfulExposed(cells, root, xs[1..]);
      k := j + 1;
    }
  }

  /** The field first found at `x` has been taken away, or, before that, not yet. */
  ghost predicate Tracked(v: Value, shown: string, f: Field, here: Option<Field>, done: bool) {
    && here.Some? && here.value == f.(content := here.value.content)
    && (Away(v, shown, f, here.value.content) || (!done && here.value == f))
  }

  lemma TrackedStep(v: Value, shown: string, data: Value, cells: Cells, root: seq<Field>, y: Spot, x: Spot, f: Field, done: bool)
    requires Stirs(v, shown) && !Rejected(f) && !Fixed(f) && f.exported
    requires Tracked(v, shown, f, LookAt(cells, root, x), done) && LookAt(cells, root, y).Some? && LookAt(cells, root, y).value.exported
    ensures var next := PutAt(cells, root, y, Rewrite(Stirring(v, shown), data, LookAt(cells, root, y).value).0);
            Tracked(v, shown, f, LookAt(next.0, next.1, x), done || x == y)
  {
    var h := LookAt(cells, root, y).value;
    var g := Rewrite(Stirring(v, shown), data, h).0;
    KindKept(Stirring(v, shown), data, h);
    LookAtAfterPutAt(cells, root, y, g, x);
    if x == y {
      if h == f {
        FirstAway(v, shown, data, f);
      } else {
        LaterAway(v, shown, data, f, h.content);
      }
    }
  }

  /** With the stirring evaluator the spots up to a rejected one all evaluate, and the
      tracked field stays tracked. */
  lemma {:induction false} PlayTracks(v: Value, shown: string, data: Value, l: Cells, r: seq<Field>, cells: Cells, root: seq<Field>,
                                     xs: seq<Spot>, x: Spot, f: Field, done: bool)
    requires Stirs(v, shown) && !Rejected(f) && !Fixed(f) && f.exported && SameKinds(l, r, cells, root)
    requires Tracked(v, shown, f, LookAt(cells, root, x), done)
    ensures var p := Play(Stirring(v, shown), data, cells, root, xs);
            && SameKinds(l, r, p.cells, p.value)
            && Tracked(v, shown, f, LookAt(p.cells, p.value, x), done)
            && ((forall y | y in xs && LookAt(l, r, y).Some? :: !Rejected(LookAt(l, r, y).value)) ==> p.error.None?)
    decreases |xs|
  {
    if xs != [] {
      var y := xs[0];
      match LookAt(cells, root, y)
      case None => PlayTracks(v, shown, data, l, r, cells, root, xs[1..], x, f, done);
      case Some(h) =>
        assert LookAt(l, r, y).Some?;
        var rt := Stirring(v, shown);
        if !Rejected(h) {
          StirringSucceeds(v, shown, data, h);
        }
        if Rewrite(rt, data, h).1.None? {
          KindsAfter(rt, data, l, r, cells, root, y);
          TrackedStep(v, shown, data, cells, root, y, x, f, done);
          var next := PutAt(cells, root, y, Rewrite(rt, data, h).0);
          PlayTracks(v, shown, data, l, r, next.0, next.1, xs[1..], x, f, done);
        }
    }
  }

  lemma KindsReflexive(cells: Cells, root: seq<Field>)
    ensures SameKinds(cells, root, cells, root)
  {
    forall x: Spot | LookAt(cells, root, x).Some? ensures LookAt(cells, root, x).value.exported {
      LookExported(if x.cell.None? then root else cells[x.cell.value], x.path);
    }
  }

  lemma {:induction false} LookExported(fields: seq<Field>, p: Path)
    requires Look(fields, p).Some?
    ensures Look(fields, p).value.exported && Look(fields, p).value.tag != ""
    decreases p
  {
    match p
    case Here =>
    case Next(q) => LookExported(fields[1..], q);
    case Into(q) => LookExported(fields[0].content.fields, q);
  }

  /** The evaluator that changes an exposed field changes memory. */
  lemma ExposedChanges(cells: Cells, root: seq<Field>, xs: seq<Spot>, k: nat) returns (rt: Runtime, data: Value)
    requires Exposed(cells, root, xs, k)
    ensures Play(rt, data, cells, root, xs).cells != cells
  {
    var x := xs[k];
    var f := LookAt(cells, root, x).value;
    var v, shown := SomeStirring(f);
    rt, data := Stirring(v, shown), Nil;
    KindsReflexive(cells, root);
    var before, after := xs[..k], xs[k + 1..];
    assert xs == before + ([x] + after);
    assert forall y | y in before :: exists j :: 0 <= j < k && xs[j] == y;
    PlayTracks(v, shown, data, cells, root, cells, root, before, x, f, false);
    var p := Play(rt, data, cells, root, before);
    PlayAppend(rt, data, cells, root, before, [x] + after);
    var h := LookAt(p.cells, p.value, x).value;
    StirringSucceeds(v, shown, data, h);
    KindsAfter(rt, data, cells, root, p.cells, p.value, x);
    TrackedStep(v, shown, data, p.cells, p.value, x, x, f, false);
    var next := PutAt(p.cells, p.value, x, Rewrite(rt, data, h).0);
    assert ([x] + after)[0] == x && ([x] + after)[1..] == after;
    PlayTracks(v, shown, data, cells, root, next.0, next.1, after, x, f, true);
    var end := Play(rt, data, next.0, next.1, after);
    AwayDiffers(v, shown, f, LookAt(end.cells, end.value, x).value.content);
  }

  /** A walk leaves every cell as it was, whatever the evaluator and the data, if and
      only if up to the first rejected field every tagged field in a cell is fixed. */
  lemma MemoryKeptExactly(cells: Cells, fields: seq<Field>, depth: nat)
    requires Fits(cells, fields, depth)
    ensures (forall rt: Runtime, data: Value :: Walk(rt, data, cells, fields, depth).cells == cells)
            <==> Harmless(cells, fields, Spots(cells, fields, depth))
  {
    var xs := Spots(cells, fields, depth);
    if Harmless(cells, fields, xs) {
      KindsReflexive(cells, fields);
      forall rt: Runtime, data: Value ensures Walk(rt, data, cells, fields, depth).cells == cells {
        WalkIsPlay(rt, data, cells, fields, depth);
        HarmlessKeeps(rt, data, cells, fields, fields, xs);
      }
    } else {
      var k := HarmfulExposed(cells, fields, xs);
      var rt, data := ExposedChanges(cells, fields, xs, k);
      WalkIsPlay(rt, data, cells, fields, depth);
    }
  }

  lemma {:induction false} RejectedStops(rt: Runtime, data: Value, l: Cells, r: seq<Field>, cells: Cells, root: seq<Field>,
                                        xs: seq<Spot>, y: Spot)
    requires SameKinds(l, r, cells, root) && y in xs && LookAt(l, r, y).Some? && Rejected(LookAt(l, r, y).value)
    ensures Play(rt, data, cells, root, xs).error.Some?
    decreases |xs|
  {
    var f := LookAt(cells, root, xs[0]);
    if xs[0] == y {
      RejectedFails(rt, data, f.value);
    } else if f.None? {
      RejectedStops(rt, data, l, r, cells, root, xs[1..], y);
    } else if Rewrite(rt, data, f.value).1.None? {
      KindsAfter(rt, data, l, r, cells, root, xs[0]);
      var next := PutAt(cells, root, xs[0], Rewrite(rt, data, f.value).0);
      RejectedStops(rt, data, l, r, next.0, next.1, xs[1..], y);
    }
  }

  /** Wherever a rejected field comes after one that memory is exposed at, some
      evaluator makes the walk fail with memory changed. */
  lemma FailureCanChangeMemory(cells: Cells, fields: seq<Field>, depth: nat, k: nat, y: Spot) returns (rt: Runtime, data: Value)
    requires Fits(cells, fields, depth) && Exposed(cells, fields, Spots(cells, fields, depth), k)
    requires y in Spots(cells, fields, depth) && LookAt(cells, fields, y).Some? && Rejected(LookAt(cells, fields, y).value)
    ensures var r := Walk(rt, data, cells, fields, depth); r.error.Some? && r.cells != cells
  {
    var xs := Spots(cells, fields, depth);
    rt, data := ExposedChanges(cells, fields, xs, k);
    KindsReflexive(cells, fields);
    RejectedStops(rt, data, cells, fields, cells, fields, xs, y);
    WalkIsPlay(rt, data, cells, fields, depth);
  }
}
