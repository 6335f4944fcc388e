/** The walk as a flat sequence: the spots it evaluates are fixed beforehand by names,
    tags and pointers, and it evaluates them one after the other, each on what the
    earlier ones left, up to the first that fails. */
module StructSpots {
  import opened Wrappers
  import opened TemplateEval
  import opened StructWalk
  import opened StructFrame
  import opened StructDepth

  /** The first field, a field after the first, or a field within the first. */
  datatype Path = Here | Next(tail: Path) | Into(inner: Path)

  /** A tagged field of a cell, or of the struct walked. */
  datatype Spot = Spot(cell: Option<nat>, path: Path)

  function Map(h: Spot -> Spot, xs: seq<Spot>): seq<Spot> {
    if xs == [] then [] else [h(xs[0])] + Map(h, xs[1..])
  }

  function AsNext(): Spot -> Spot { (x: Spot) => if x.cell.None? then x.(path := Next(x.path)) else x }

  function AsInto(): Spot -> Spot { (x: Spot) => if x.cell.None? then x.(path := Into(x.path)) else x }

  function InCell(a: nat): Spot -> Spot { (x: Spot) => if x.cell.None? then x.(cell := Some(a)) else x }

  function Spots(cells: Cells, fields: seq<Field>, depth: nat): seq<Spot>
    decreases depth, fields, 0
  {
    if fields == [] then []
    else SpotsOf(cells, fields[0], depth) + Map(AsNext(), Spots(cells, fields[1..], depth))
  }

  /** Spots of the first field: itself if tagged, or within its struct, or behind its pointer. */
  function SpotsOf(cells: Cells, f: Field, depth: nat): seq<Spot>
    decreases depth, f, 1
  {
    if !f.exported then []
    else if f.tag != "" then [Spot(None, Here)]
    else match f.content
      case Struct(fs) => Map(AsInto(), Spots(cells, fs, depth))
      case StructPtr(a) =>
        if a !in cells || depth == 0 then [] else Map(InCell(a), Spots(cells, cells[a], depth - 1))
      case _ => []
  }

  /** The tagged field at a path. */
  function Look(fields: seq<Field>, p: Path): Option<Field>
    decreases p
  {
    if fields == [] then None
    else match p
      case Here => if fields[0].exported && fields[0].tag != "" then Some(fields[0]) else None
      case Next(q) => Look(fields[1..], q)
      case Into(q) =>
        if fields[0].exported && fields[0].tag == "" && fields[0].content.Struct? then Look(fields[0].content.fields, q)
        else None
  }

  function Put(fields: seq<Field>, p: Path, g: Field): seq<Field>
    decreases p
  {
    if fields == [] then []
    else match p
      case Here => [g] + fields[1..]
      case Next(q) => [fields[0]] + Put(fields[1..], q, g)
      case Into(q) =>
        if fields[0].content.Struct? then
          [fields[0].(content := Struct(Put(fields[0].content.fields, q, g)))] + fields[1..]
        else fields
  }

  function LookAt(cells: Cells, root: seq<Field>, x: Spot): Option<Field> {
    if x.cell.None? then Look(root, x.path)
    else if x.cell.value in cells then Look(cells[x.cell.value], x.path) else None
  }

  function PutAt(cells: Cells, root: seq<Field>, x: Spot, g: Field): (Cells, seq<Field>) {
    if x.cell.None? then (cells, Put(root, x.path, g))
    else if x.cell.value in cells then (cells[x.cell.value := Put(cells[x.cell.value], x.path, g)], root)
    else (cells, root)
  }

  /** Evaluates the spots in order, up to the first that fails. */
  function Play(rt: Runtime, data: Value, cells: Cells, root: seq<Field>, xs: seq<Spot>): Walked<seq<Field>>
    decreases |xs|
  {
    if xs == [] then Walked(cells, root, None)
    else match LookAt(cells, root, xs[0])
      case None => Play(rt, data, cells, root, xs[1..])
      case Some(f) =>
        var r := Rewrite(rt, data, f);
        if r.1.Some? then Walked(cells, root, r.1)
        else
          var next := PutAt(cells, root, xs[0], r.0);
          Play(rt, data, next.0, next.1, xs[1..])
  }

  lemma {:induction false} PlayAppend(rt: Runtime, data: Value, cells: Cells, root: seq<Field>, xs: seq<Spot>, ys: seq<Spot>)
    ensures var r := Play(rt, data, cells, root, xs);
            Play(rt, data, cells, root, xs + ys)
            == if r.error.Some? then r else Play(rt, data, r.cells, r.value, ys)
    decreases |xs|
  {
    if xs == [] {
      assert xs + ys == ys;
    } else {
      assert (xs + ys)[0] == xs[0] && (xs + ys)[1..] == xs[1..] + ys;
      match LookAt(cells, root, xs[0])
      case None => PlayAppend(rt, data, cells, root, xs[1..], ys);
      case Some(f) =>
        var next := PutAt(cells, root, xs[0], Rewrite(rt, data, f).0);
        PlayAppend(rt, data, next.0, next.1, xs[1..], ys);
    }
  }

  lemma MapHead(h: Spot -> Spot, xs: seq<Spot>)
    requires xs != []
    ensures Map(h, xs)[0] == h(xs[0]) && Map(h, xs)[1..] == Map(h, xs[1..]) && Map(h, xs) != []
  {
  }

  /** Playing after the first field leaves it alone. */
  lemma {:induction false} PlayNext(rt: Runtime, data: Value, cells: Cells, f: Field, tail: seq<Field>, xs: seq<Spot>)
    ensures var r := Play(rt, data, cells, tail, xs);
            Play(rt, data, cells, [f] + tail, Map(AsNext(), xs)) == Walked(r.cells, [f] + r.value, r.error)
    decreases |xs|
  {
    if xs != [] {
      MapHead(AsNext(), xs);
      var x, root := xs[0], [f] + tail;
      assert root[0] == f && root[1..] == tail;
      assert LookAt(cells, root, AsNext()(x)) == LookAt(cells, tail, x);
      match LookAt(cells, tail, x)
      case None => PlayNext(rt, data, cells, f, tail, xs[1..]);
      case Some(g) =>
        var next := PutAt(cells, tail, x, Rewrite(rt, data, g).0);
        assert PutAt(cells, root, AsNext()(x), Rewrite(rt, data, g).0) == (next.0, [f] + next.1);
        PlayNext(rt, data, next.0, f, next.1, xs[1..]);
    }
  }

  /** Playing within the first field's struct leaves the rest alone. */
  lemma {:induction false} PlayInto(rt: Runtime, data: Value, cells: Cells, f: Field, tail: seq<Field>, xs: seq<Spot>)
    requires f.exported && f.tag == "" && f.content.Struct?
    ensures var r := Play(rt, data, cells, f.content.fields, xs);
            Play(rt, data, cells, [f] + tail, Map(AsInto(), xs))
            == Walked(r.cells, [f.(content := Struct(r.value))] + tail, r.error)
    decreases |xs|
  {
    if xs != [] {
      MapHead(AsInto(), xs);
      var x, root, fs := xs[0], [f] + tail, f.content.fields;
      assert root[0] == f && root[1..] == tail;
      assert LookAt(cells, root, AsInto()(x)) == LookAt(cells, fs, x);
      match LookAt(cells, fs, x)
      case None => PlayInto(rt, data, cells, f, tail, xs[1..]);
      case Some(g) =>
        var next := PutAt(cells, fs, x, Rewrite(rt, data, g).0);
        var f' := f.(content := Struct(next.1));
        assert PutAt(cells, root, AsInto()(x), Rewrite(rt, data, g).0) == (next.0, [f'] + tail);
        PlayInto(rt, data, next.0, f', tail, xs[1..]);
    }
  }

  /** Playing in a cell is playing its struct apart and storing it, if nothing below leads back. */
  lemma {:induction false} PlayInCell(rt: Runtime, data: Value, cells: Cells, a: nat, fs: seq<Field>, root: seq<Field>, xs: seq<Spot>)
    requires forall x | x in xs :: x.cell != Some(a)
    ensures var r := Play(rt, data, cells, fs, xs);
            Play(rt, data, cells[a := fs], root, Map(InCell(a), xs)) == Walked(r.cells[a := r.value], root, r.error)
    decreases |xs|
  {
    if xs != [] {
      MapHead(InCell(a), xs);
      var x := xs[0];
      assert x in xs;
      assert LookAt(cells[a := fs], root, InCell(a)(x)) == LookAt(cells, fs, x);
      match LookAt(cells, fs, x)
      case None => PlayInCell(rt, data, cells, a, fs, root, xs[1..]);
      case Some(g) =>
        var next := PutAt(cells, fs, x, Rewrite(rt, data, g).0);
        PutInCell(cells, a, fs, root, x, Rewrite(rt, data, g).0);
        PlayInCell(rt, data, next.0, a, next.1, root, xs[1..]);
    }
  }

  lemma PutInCell(cells: Cells, a: nat, fs: seq<Field>, root: seq<Field>, x: Spot, g: Field)
    requires x.cell != Some(a)
    ensures var next := PutAt(cells, fs, x, g);
            PutAt(cells[a := fs], root, InCell(a)(x), g) == (next.0[a := next.1], root)
  {
    if x.cell.None? {
      assert cells[a := fs][a := Put(fs, x.path, g)] == cells[a := Put(fs, x.path, g)];
    } else if x.cell.value in cells {
      var b := x.cell.value;
      assert cells[a := fs][b := Put(cells[b], x.path, g)] == cells[b := Put(cells[b], x.path, g)][a := fs];
    }
  }

  /** Where a walk evaluates depends on names, tags and pointers alone. */
  lemma {:induction false} SkeletonSpots(m: Cells, n: Cells, fs: seq<Field>, gs: seq<Field>, depth: nat)
    requires SameCells(m, n) && SameSkeleton(fs, gs)
    ensures Spots(m, fs, depth) == Spots(n, gs, depth)
    decreases depth, fs, 0
  {
    if fs != [] {
      SkeletonSpotsOf(m, n, fs[0], gs[0], depth);
      SkeletonSpots(m, n, fs[1..], gs[1..], depth);
    }
  }

  lemma {:induction false} SkeletonSpotsOf(m: Cells, n: Cells, f: Field, g: Field, depth: nat)
    requires SameCells(m, n) && SameField(f, g)
    ensures SpotsOf(m, f, depth) == SpotsOf(n, g, depth)
    decreases depth, f, 1
  {
    if f.exported && f.tag == "" {
      match f.content
      case Struct(fs) => SkeletonSpots(m, n, fs, g.content.fields, depth);
      case StructPtr(a) =>
        if a in m && depth > 0 {
          SkeletonSpots(m, n, m[a], n[a], depth - 1);
        }
      case _ =>
    }
  }

  lemma {:induction false} MapCells(h: Spot -> Spot, xs: seq<Spot>, allowed: set<Option<nat>>)
    requires forall x | x in xs :: h(x).cell in allowed
    ensures forall y | y in Map(h, xs) :: y.cell in allowed
  {
    if xs != [] {
      MapCells(h, xs[1..], allowed);
    }
  }

  function Places(visits: seq<nat>): set<Option<nat>> { {None} + set a | a in visits :: Some(a) }

  /** Spots lie in the struct walked or in visited cells. */
  lemma {:induction false} SpotsAreVisited(cells: Cells, fields: seq<Field>, depth: nat)
    ensures forall x | x in Spots(cells, fields, depth) :: x.cell in Places(Visits(cells, fields, depth))
    decreases depth, fields, 0
  {
    if fields != [] {
      var all := Places(Visits(cells, fields, depth));
      SpotsOfAreVisited(cells, fields[0], depth);
      SpotsAreVisited(cells, fields[1..], depth);
      MapCells(AsNext(), Spots(cells, fields[1..], depth), all);
    }
  }

  lemma {:induction false} SpotsOfAreVisited(cells: Cells, f: Field, depth: nat)
    ensures forall x | x in SpotsOf(cells, f, depth) :: x.cell in Places(VisitsOf(cells, f, depth))
    decreases depth, f, 1
  {
    if f.exported && f.tag == "" {
      match f.content
      case Struct(fs) =>
        SpotsAreVisited(cells, fs, depth);
        MapCells(AsInto(), Spots(cells, fs, depth), Places(Visits(cells, fs, depth)));
      case StructPtr(a) =>
        if a in cells && depth > 0 {
          SpotsAreVisited(cells, cells[a], depth - 1);
          MapCells(InCell(a), Spots(cells, cells[a], depth - 1), Places(VisitsOf(cells, f, depth)));
        }
      case _ =>
    }
  }

  /** The walk is the play of its spots: it evaluates exactly these fields, in this
      order, each on what the earlier ones left, stops at the first that fails, and
      leaves memory and copy as the evaluations before that left them. */
  lemma {:induction false} WalkIsPlay(rt: Runtime, data: Value, cells: Cells, fields: seq<Field>, depth: nat)
    requires Fits(cells, fields, depth)
    ensures Walk(rt, data, cells, fields, depth) == Play(rt, data, cells, fields, Spots(cells, fields, depth))
    decreases depth, fields, 0
  {
    if fields != [] {
      var f, tail := fields[0], fields[1..];
      var first := WalkField(rt, data, cells, f, depth);
      assert fields == [f] + tail;
      FieldIsPlay(rt, data, cells, f, tail, depth);
      PlayAppend(rt, data, cells, fields, SpotsOf(cells, f, depth), Map(AsNext(), Spots(cells, tail, depth)));
      if first.error.None? {
        RestUnaffected(rt, data, cells, f, tail, depth);
        SkeletonReflexive(tail);
        SkeletonSpots(cells, first.cells, tail, tail, depth);
        WalkIsPlay(rt, data, first.cells, tail, depth);
        PlayNext(rt, data, first.cells, first.value, tail, Spots(cells, tail, depth));
      }
    }
  }

  lemma {:induction false} FieldIsPlay(rt: Runtime, data: Value, cells: Cells, f: Field, tail: seq<Field>, depth: nat)
    requires FitsField(cells, f, depth)
    ensures var first := WalkField(rt, data, cells, f, depth);
            Play(rt, data, cells, [f] + tail, SpotsOf(cells, f, depth))
            == Walked(first.cells, [first.value] + tail, first.error)
    decreases depth, f, 1
  {
    if f.exported && f.tag != "" {
      assert ([f] + tail)[1..] == tail;
      assert [Spot(None, Here)][1..] == [];
    } else if f.exported {
      match f.content
      case Struct(fs) =>
        WalkIsPlay(rt, data, cells, fs, depth);
        PlayInto(rt, data, cells, f, tail, Spots(cells, fs, depth));
      case StructPtr(a) =>
        if a in cells {
          WalkIsPlay(rt, data, cells, cells[a], depth - 1);
          NoCycle(cells, a, depth - 1);
          SpotsAreVisited(cells, cells[a], depth - 1);
          assert cells[a := cells[a]] == cells;
          PlayInCell(rt, data, cells, a, cells[a], [f] + tail, Spots(cells, cells[a], depth - 1));
        }
      case _ =>
    }
  }

  // ---- spots and what stands there

  lemma {:induction false} MapLooks(cells: Cells, root: seq<Field>, all: seq<Field>, h: Spot -> Spot, xs: seq<Spot>)
    requires forall x | x in xs :: LookAt(cells, root, x).Some? && LookAt(cells, all, h(x)).Some?
    ensures forall y | y in Map(h, xs) :: LookAt(cells, all, y).Some?
  {
    if xs != [] {
      MapLooks(cells, root, all, h, xs[1..]);
    }
  }

  /** Every spot is a tagged field: the play skips nothing. */
  lemma {:induction false} SpotsAreTagged(cells: Cells, fields: seq<Field>, depth: nat)
    ensures forall x | x in Spots(cells, fields, depth) :: LookAt(cells, fields, x).Some?
    decreases depth, fields, 0
  {
    if fields != [] {
      SpotsOfAreTagged(cells, fields[0], fields[1..], depth);
      SpotsAreTagged(cells, fields[1..], depth);
      assert fields == [fields[0]] + fields[1..];
      MapLooks(cells, fields[1..], fields, AsNext(), Spots(cells, fields[1..], depth));
    }
  }

  lemma {:induction false} SpotsOfAreTagged(cells: Cells, f: Field, tail: seq<Field>, depth: nat)
    ensures forall x | x in SpotsOf(cells, f, depth) :: LookAt(cells, [f] + tail, x).Some?
    decreases depth, f, 1
  {
    if f.exported && f.tag == "" {
      match f.content
      case Struct(fs) =>
        SpotsAreTagged(cells, fs, depth);
        MapLooks(cells, fs, [f] + tail, AsInto(), Spots(cells, fs, depth));
      case StructPtr(a) =>
        if a in cells && depth > 0 {
          SpotsAreTagged(cells, cells[a], depth - 1);
          MapLooks(cells, cells[a], [f] + tail, InCell(a), Spots(cells, cells[a], depth - 1));
        }
      case _ =>
    }
  }

  lemma {:induction false} MapMember(h: Spot -> Spot, xs: seq<Spot>, x: Spot)
    requires x in xs
    ensures h(x) in Map(h, xs)
  {
    if x != xs[0] {
      MapMember(h, xs[1..], x);
    }
  }

  lemma {:induction false} RootSpot(cells: Cells, fields: seq<Field>, depth: nat, p: Path)
    requires Look(fields, p).Some?
    ensures Spot(None, p) in Spots(cells, fields, depth)
    decreases p
  {
    match p
    case Here =>
    case Next(q) =>
      RootSpot(cells, fields[1..], depth, q);
      MapMember(AsNext(), Spots(cells, fields[1..], depth), Spot(None, q));
    case Into(q) =>
      RootSpot(cells, fields[0].content.fields, depth, q);
      MapMember(AsInto(), Spots(cells, fields[0].content.fields, depth), Spot(None, q));
  }

  lemma {:induction false} CellSpot(cells: Cells, fields: seq<Field>, depth: nat, a: nat, p: Path)
    requires a in Visits(cells, fields, depth) && a in cells && Look(cells[a], p).Some?
    ensures Spot(Some(a), p) in Spots(cells, fields, depth)
    decreases depth, fields, 0
  {
    if a in VisitsOf(cells, fields[0], depth) {
      CellSpotOf(cells, fields[0], depth, a, p);
    } else {
      CellSpot(cells, fields[1..], depth, a, p);
      MapMember(AsNext(), Spots(cells, fields[1..], depth), Spot(Some(a), p));
    }
  }

  lemma {:induction false} CellSpotOf(cells: Cells, f: Field, depth: nat, a: nat, p: Path)
    requires a in VisitsOf(cells, f, depth) && a in cells && Look(cells[a], p).Some?
    ensures Spot(Some(a), p) in SpotsOf(cells, f, depth)
    decreases depth, f, 1
  {
    match f.content
    case Struct(fs) =>
      CellSpot(cells, fs, depth, a, p);
      MapMember(AsInto(), Spots(cells, fs, depth), Spot(Some(a), p));
    case StructPtr(b) =>
      if a == b {
        RootSpot(cells, cells[b], depth - 1, p);
        MapMember(InCell(b), Spots(cells, cells[b], depth - 1), Spot(None, p));
      } else {
        CellSpot(cells, cells[b], depth - 1, a, p);
        MapMember(InCell(b), Spots(cells, cells[b], depth - 1), Spot(Some(a), p));
      }
  }

  /** The spots are exactly the tagged fields of the struct walked and of the cells
      visited, inside structs or not. */
  lemma SpotsExactly(cells: Cells, fields: seq<Field>, depth: nat, x: Spot)
    ensures x in Spots(cells, fields, depth)
            <==> LookAt(cells, fields, x).Some? && x.cell in Places(Visits(cells, fields, depth))
  {
    SpotsAreTagged(cells, fields, depth);
    SpotsAreVisited(cells, fields, depth);
    if LookAt(cells, fields, x).Some? && x.cell in Places(Visits(cells, fields, depth)) {
      if x.cell.None? {
        RootSpot(cells, fields, depth, x.path);
      } else {
        CellSpot(cells, fields, depth, x.cell.value, x.path);
      }
    }
  }

  /** The play stops at spot `k`: those before it have been evaluated, it fails. */
  ghost predicate StopsAt(rt: Runtime, data: Value, cells: Cells, root: seq<Field>, xs: seq<Spot>, k: nat, r: Walked<seq<Field>>) {
    && k < |xs|
    && Play(rt, data, cells, root, xs[..k]) == Walked(r.cells, r.value, None)
    && LookAt(r.cells, r.value, xs[k]).Some?
    && r.error == Rewrite(rt, data, LookAt(r.cells, r.value, xs[k]).value).1
  }

  lemma {:induction false} FailureStops(rt: Runtime, data: Value, cells: Cells, root: seq<Field>, xs: seq<Spot>) returns (k: nat)
    requires Play(rt, data, cells, root, xs).error.Some?
    ensures StopsAt(rt, data, cells, root, xs, k, Play(rt, data, cells, root, xs))
    decreases |xs|
  {
    var f := LookAt(cells, root, xs[0]);
    if f.Some? && Rewrite(rt, data, f.value).1.Some? {
      k := 0;
    } else {
      var next := if f.None? then (cells, root) else PutAt(cells, root, xs[0], Rewrite(rt, data, f.value).0);
      var j := FailureStops(rt, data, next.0, next.1, xs[1..]);
      k := j + 1;
      assert xs[..k][0] == xs[0] && xs[..k][1..] == xs[1..][..j];
    }
  }

  /** Storing at one spot changes what stands there and nowhere else. */
  lemma {:induction false} LookAfterPut(fields: seq<Field>, p: Path, g: Field, q: Path)
    requires Look(fields, p).Some? && g.exported && g.tag == Look(fields, p).value.tag
    ensures Look(Put(fields, p, g), q) == if p == q then Some(g) else Look(fields, q)
    ensures Look(fields, p).value.exported && g.tag != ""
    decreases p
  {
    match p
    case Here =>
    case Next(p') =>
      LookAfterPut(fields[1..], p', g, if q.Next? then q.tail else q);
    case Into(p') =>
      LookAfterPut(fields[0].content.fields, p', g, if q.Into? then q.inner else q);
  }

  lemma LookAtAfterPutAt(cells: Cells, root: seq<Field>, x: Spot, g: Field, y: Spot)
    requires LookAt(cells, root, x).Some? && g.exported && g.tag == LookAt(cells, root, x).value.tag
    ensures var next := PutAt(cells, root, x, g);
            LookAt(next.0, next.1, y) == if x == y then Some(g) else LookAt(cells, root, y)
  {
    if x.cell.None? {
      LookAfterPut(root, x.path, g, y.path);
    } else {
      LookAfterPut(cells[x.cell.value], x.path, g, y.path);
    }
  }

  lemma {:induction false} PutSame(fields: seq<Field>, p: Path)
    requires Look(fields, p).Some?
    ensures Put(fields, p, Look(fields, p).value) == fields
    decreases p
  {
    assert fields == [fields[0]] + fields[1..];
    match p
    case Here =>
    case Next(q) => PutSame(fields[1..], q);
    case Into(q) => PutSame(fields[0].content.fields, q);
  }
}
