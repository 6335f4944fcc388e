/** How deep pointers go: the model's walk stops at a depth, the source's does not,
    and where the depth covers the pointers the two agree. */
module StructDepth {
  import opened TemplateEval
  import opened StructWalk
  import opened StructFrame

  /** No chain of nested pointers is longer than `depth`. */
  predicate Fits(cells: Cells, fields: seq<Field>, depth: nat)
    decreases depth, fields, 0
  {
    fields == [] || (FitsField(cells, fields[0], depth) && Fits(cells, fields[1..], depth))
  }

  predicate FitsField(cells: Cells, f: Field, depth: nat)
    decreases depth, f, 1
  {
    if !f.exported || f.tag != "" then true
    else match f.content
      case Struct(fs) => Fits(cells, fs, depth)
      case StructPtr(a) => a in cells ==> depth > 0 && Fits(cells, cells[a], depth - 1)
      case _ => true
  }

  lemma {:induction false} SkeletonFits(m: Cells, n: Cells, fs: seq<Field>, gs: seq<Field>, depth: nat)
    requires SameCells(m, n) && SameSkeleton(fs, gs)
    ensures Fits(m, fs, depth) == Fits(n, gs, depth)
    decreases depth, fs, 0
  {
    if fs != [] {
      SkeletonFitsField(m, n, fs[0], gs[0], depth);
      SkeletonFits(m, n, fs[1..], gs[1..], depth);
    }
  }

  lemma {:induction false} SkeletonFitsField(m: Cells, n: Cells, f: Field, g: Field, depth: nat)
    requires SameCells(m, n) && SameField(f, g)
    ensures FitsField(m, f, depth) == FitsField(n, g, depth)
    decreases depth, f, 1
  {
    if f.exported && f.tag == "" {
      match f.content
      case Struct(fs) => SkeletonFits(m, n, fs, g.content.fields, depth);
      case StructPtr(a) =>
        if a in m && depth > 0 {
          SkeletonFits(m, n, m[a], n[a], depth - 1);
        }
      case _ =>
    }
  }

  /** Walking one field changes neither where the others lead nor how deep. */
  lemma RestUnaffected(rt: Runtime, data: Value, cells: Cells, f: Field, tail: seq<Field>, depth: nat)
    ensures var first := WalkField(rt, data, cells, f, depth);
            && SameCells(cells, first.cells)
            && Fits(first.cells, tail, depth) == Fits(cells, tail, depth)
            && Visits(first.cells, tail, depth) == Visits(cells, tail, depth)
  {
    var first := WalkField(rt, data, cells, f, depth);
    WalkFieldKeepsSkeleton(rt, data, cells, f, depth);
    SkeletonReflexive(tail);
    SkeletonFits(cells, first.cells, tail, tail, depth);
    SkeletonVisits(cells, first.cells, tail, tail, depth);
  }

  /** Where the pointers fit, more depth changes nothing. */
  lemma {:induction false} DepthIsIrrelevant(rt: Runtime, data: Value, cells: Cells, fields: seq<Field>, depth: nat, more: nat)
    requires Fits(cells, fields, depth)
    ensures Walk(rt, data, cells, fields, depth + more) == Walk(rt, data, cells, fields, depth)
    decreases depth, fields, 0
  {
    if fields != [] {
      FieldDepthIsIrrelevant(rt, data, cells, fields[0], depth, more);
      var first := WalkField(rt, data, cells, fields[0], depth);
      RestUnaffected(rt, data, cells, fields[0], fields[1..], depth);
      DepthIsIrrelevant(rt, data, first.cells, fields[1..], depth, more);
    }
  }

  lemma {:induction false} FieldDepthIsIrrelevant(rt: Runtime, data: Value, cells: Cells, f: Field, depth: nat, more: nat)
    requires FitsField(cells, f, depth)
    ensures WalkField(rt, data, cells, f, depth + more) == WalkField(rt, data, cells, f, depth)
    decreases depth, f, 1
  {
    if f.exported && f.tag == "" {
      match f.content
      case Struct(fs) => DepthIsIrrelevant(rt, data, cells, fs, depth, more);
      case StructPtr(a) =>
        if a in cells {
          DepthIsIrrelevant(rt, data, cells, cells[a], depth - 1, more);
          assert depth + more - 1 == (depth - 1) + more;
        }
      case _ =>
    }
  }

  /** Nor does it change which cells are visited. */
  lemma {:induction false} MoreFits(cells: Cells, fields: seq<Field>, depth: nat, more: nat)
    requires Fits(cells, fields, depth) && depth <= more
    ensures Fits(cells, fields, more) && Visits(cells, fields, more) == Visits(cells, fields, depth)
    decreases depth, fields, 0
  {
    if fields != [] {
      MoreFitsField(cells, fields[0], depth, more);
      MoreFits(cells, fields[1..], depth, more);
    }
  }

  lemma {:induction false} MoreFitsField(cells: Cells, f: Field, depth: nat, more: nat)
    requires FitsField(cells, f, depth) && depth <= more
    ensures FitsField(cells, f, more) && VisitsOf(cells, f, more) == VisitsOf(cells, f, depth)
    decreases depth, f, 1
  {
    if f.exported && f.tag == "" {
      match f.content
      case Struct(fs) => MoreFits(cells, fs, depth, more);
      case StructPtr(a) =>
        if a in cells {
          MoreFits(cells, cells[a], depth - 1, more - 1);
        }
      case _ =>
    }
  }

  /** A visited cell has less depth below it. */
  lemma {:induction false} VisitedFits(cells: Cells, fields: seq<Field>, depth: nat, a: nat)
    requires Fits(cells, fields, depth) && a in Visits(cells, fields, depth)
    ensures depth > 0 && a in cells && Fits(cells, cells[a], depth - 1)
    decreases depth, fields, 0
  {
    if a in VisitsOf(cells, fields[0], depth) {
      VisitedFitsField(cells, fields[0], depth, a);
    } else {
      VisitedFits(cells, fields[1..], depth, a);
    }
  }

  lemma {:induction false} VisitedFitsField(cells: Cells, f: Field, depth: nat, a: nat)
    requires FitsField(cells, f, depth) && a in VisitsOf(cells, f, depth)
    ensures depth > 0 && a in cells && Fits(cells, cells[a], depth - 1)
    decreases depth, f, 1
  {
    match f.content
    case Struct(fs) => VisitedFits(cells, fs, depth, a);
    case StructPtr(b) =>
      if a != b {
        VisitedFits(cells, cells[b], depth - 1, a);
        MoreFits(cells, cells[a], depth - 2, depth - 1);
      }
    case _ =>
  }

  /** Pointers that fit form no cycle. */
  lemma {:induction false} NoCycle(cells: Cells, a: nat, depth: nat)
    requires a in cells && Fits(cells, cells[a], depth)
    ensures a !in Visits(cells, cells[a], depth)
  {
    if a in Visits(cells, cells[a], depth) {
      VisitedFits(cells, cells[a], depth, a);
      MoreFits(cells, cells[a], depth - 1, depth);
      NoCycle(cells, a, depth - 1);
    }
  }

  /** Where the depth does not cover the pointers, the walk says so, if it gets there. */
  lemma {:induction false} UnfitFails(rt: Runtime, data: Value, cells: Cells, fields: seq<Field>, depth: nat)
    requires !Fits(cells, fields, depth)
    ensures Walk(rt, data, cells, fields, depth).error.Some?
    decreases depth, fields, 0
  {
    var first := WalkField(rt, data, cells, fields[0], depth);
    if !FitsField(cells, fields[0], depth) {
      UnfitFieldFails(rt, data, cells, fields[0], depth);
    } else if first.error.None? {
      RestUnaffected(rt, data, cells, fields[0], fields[1..], depth);
      UnfitFails(rt, data, first.cells, fields[1..], depth);
    }
  }

  lemma {:induction false} UnfitFieldFails(rt: Runtime, data: Value, cells: Cells, f: Field, depth: nat)
    requires !FitsField(cells, f, depth)
    ensures WalkField(rt, data, cells, f, depth).error.Some?
    decreases depth, f, 1
  {
    match f.content
    case Struct(fs) => UnfitFails(rt, data, cells, fs, depth);
    case StructPtr(a) =>
      if depth > 0 {
        UnfitFails(rt, data, cells, cells[a], depth - 1);
      }
  }
}
