/** Which memory a walk enters, what it can change there, and what it leaves alone. */
module StructFrame {
  import opened TemplateEval
  import opened StructWalk

  /** The cells a walk enters, in order. */
  function Visits(cells: Cells, fields: seq<Field>, depth: nat): seq<nat>
    decreases depth, fields, 0
  {
    if fields == [] then [] else VisitsOf(cells, fields[0], depth) + Visits(cells, fields[1..], depth)
  }

  function VisitsOf(cells: Cells, f: Field, depth: nat): seq<nat>
    decreases depth, f, 1
  {
    if !f.exported || f.tag != "" then []
    else match f.content
      case Struct(fs) => Visits(cells, fs, depth)
      case StructPtr(a) =>
        if a !in cells || depth == 0 then [] else [a] + Visits(cells, cells[a], depth - 1)
      case _ => []
  }

  /** Fields with the same pointers in the same places. */
  predicate SameSkeleton(fs: seq<Field>, gs: seq<Field>)
    decreases fs, 0
  {
    |fs| == |gs| && (fs == [] || (SameField(fs[0], gs[0]) && SameSkeleton(fs[1..], gs[1..])))
  }

  predicate SameField(f: Field, g: Field)
    decreases f, 1
  {
    && f.name == g.name && f.exported == g.exported && f.tag == g.tag
    && (if !f.exported then f == g
        else if f.tag != "" then
          (Supported(f.content) && Supported(g.content)) || f == g
        else if f.content.Struct? then g.content.Struct? && SameSkeleton(f.content.fields, g.content.fields)
        else f == g)
  }

  predicate SameCells(m: Cells, n: Cells) {
    m.Keys == n.Keys && forall a | a in m :: SameSkeleton(m[a], n[a])
  }

  lemma {:induction false} SkeletonReflexive(fs: seq<Field>)
    ensures SameSkeleton(fs, fs)
    decreases fs, 0
  {
    if fs != [] {
      FieldReflexive(fs[0]);
      SkeletonReflexive(fs[1..]);
    }
  }

  lemma {:induction false} FieldReflexive(f: Field)
    ensures SameField(f, f)
    decreases f, 1
  {
    if f.content.Struct? { SkeletonReflexive(f.content.fields); }
  }

  lemma {:induction false} SkeletonTransitive(fs: seq<Field>, gs: seq<Field>, hs: seq<Field>)
    requires SameSkeleton(fs, gs) && SameSkeleton(gs, hs)
    ensures SameSkeleton(fs, hs)
    decreases fs, 0
  {
    if fs != [] {
      FieldTransitive(fs[0], gs[0], hs[0]);
      SkeletonTransitive(fs[1..], gs[1..], hs[1..]);
    }
  }

  lemma {:induction false} FieldTransitive(f: Field, g: Field, h: Field)
    requires SameField(f, g) && SameField(g, h)
    ensures SameField(f, h)
    decreases f, 1
  {
    if f.exported && f.tag == "" && f.content.Struct? {
      SkeletonTransitive(f.content.fields, g.content.fields, h.content.fields);
    }
  }

  lemma CellsTransitive(l: Cells, m: Cells, n: Cells)
    requires SameCells(l, m) && SameCells(m, n)
    ensures SameCells(l, n)
  {
    forall a | a in l ensures SameSkeleton(l[a], n[a]) {
      SkeletonTransitive(l[a], m[a], n[a]);
    }
  }

  lemma CellsReflexive(m: Cells)
    ensures SameCells(m, m)
  {
    forall a | a in m ensures SameSkeleton(m[a], m[a]) {
      SkeletonReflexive(m[a]);
    }
  }

  /** Pointers decide where a walk goes, so equal skeletons give equal visits. */
  lemma {:induction false} SkeletonVisits(m: Cells, n: Cells, fs: seq<Field>, gs: seq<Field>, depth: nat)
    requires SameCells(m, n) && SameSkeleton(fs, gs)
    ensures Visits(m, fs, depth) == Visits(n, gs, depth)
    decreases depth, fs, 0
  {
    if fs != [] {
      SkeletonVisitsOf(m, n, fs[0], gs[0], depth);
      SkeletonVisits(m, n, fs[1..], gs[1..], depth);
    }
  }

  lemma {:induction false} SkeletonVisitsOf(m: Cells, n: Cells, f: Field, g: Field, depth: nat)
    requires SameCells(m, n) && SameField(f, g)
    ensures VisitsOf(m, f, depth) == VisitsOf(n, g, depth)
    decreases depth, f, 1
  {
    if f.exported && f.tag == "" {
      match f.content
      case Struct(fs) => SkeletonVisits(m, n, fs, g.content.fields, depth);
      case StructPtr(a) =>
        if a in m && depth > 0 {
          SkeletonVisits(m, n, m[a], n[a], depth - 1);
        }
      case _ =>
    }
  }

  /** A walk keeps every pointer, name and tag. */
  lemma {:induction false} WalkKeepsSkeleton(rt: Runtime, data: Value, cells: Cells, fields: seq<Field>, depth: nat)
    ensures var r := Walk(rt, data, cells, fields, depth);
            SameCells(cells, r.cells) && SameSkeleton(fields, r.value)
    decreases depth, fields, 0
  {
    if fields == [] {
      CellsReflexive(cells);
    } else {
      var first := WalkField(rt, data, cells, fields[0], depth);
      WalkFieldKeepsSkeleton(rt, data, cells, fields[0], depth);
      if first.error.Some? {
        SkeletonReflexive(fields[1..]);
      } else {
        WalkKeepsSkeleton(rt, data, first.cells, fields[1..], depth);
        CellsTransitive(cells, first.cells, Walk(rt, data, first.cells, fields[1..], depth).cells);
      }
    }
  }

  lemma {:induction false} WalkFieldKeepsSkeleton(rt: Runtime, data: Value, cells: Cells, f: Field, depth: nat)
    ensures var r := WalkField(rt, data, cells, f, depth);
            SameCells(cells, r.cells) && SameField(f, r.value)
    decreases depth, f, 1
  {
    FieldReflexive(f);
    CellsReflexive(cells);
    if f.exported && f.tag == "" {
      match f.content
      case Struct(fs) => WalkKeepsSkeleton(rt, data, cells, fs, depth);
      case StructPtr(a) =>
        if a in cells && depth > 0 {
          var r := Walk(rt, data, cells, cells[a], depth - 1);
          WalkKeepsSkeleton(rt, data, cells, cells[a], depth - 1);
          CellStored(cells, r.cells, a, r.value);
        }
      case _ =>
    }
  }

  lemma CellStored(m: Cells, n: Cells, a: nat, fs: seq<Field>)
    requires SameCells(m, n) && a in m && SameSkeleton(m[a], fs)
    ensures SameCells(m, n[a := fs])
  {
  }

  /** The frame: a cell the walk does not visit is not changed. */
  lemma {:induction false} WalkFrame(rt: Runtime, data: Value, cells: Cells, fields: seq<Field>, depth: nat)
    ensures var r := Walk(rt, data, cells, fields, depth);
            r.cells.Keys == cells.Keys
            && forall a | a in cells && a !in Visits(cells, fields, depth) :: r.cells[a] == cells[a]
    decreases depth, fields, 0
  {
    if fields != [] {
      var first := WalkField(rt, data, cells, fields[0], depth);
      WalkFieldFrame(rt, data, cells, fields[0], depth);
      if first.error.None? {
        WalkFrame(rt, data, first.cells, fields[1..], depth);
        WalkFieldKeepsSkeleton(rt, data, cells, fields[0], depth);
        SkeletonReflexive(fields[1..]);
        SkeletonVisits(cells, first.cells, fields[1..], fields[1..], depth);
      }
    }
  }

  lemma {:induction false} WalkFieldFrame(rt: Runtime, data: Value, cells: Cells, f: Field, depth: nat)
    ensures var r := WalkField(rt, data, cells, f, depth);
            r.cells.Keys == cells.Keys
            && forall a | a in cells && a !in VisitsOf(cells, f, depth) :: r.cells[a] == cells[a]
    decreases depth, f, 1
  {
    if f.exported && f.tag == "" {
      match f.content
      case Struct(fs) => WalkFrame(rt, data, cells, fs, depth);
      case StructPtr(a) =>
        if a in cells && depth > 0 {
          WalkFrame(rt, data, cells, cells[a], depth - 1);
        }
      case _ =>
    }
  }
}
