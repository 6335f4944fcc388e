/** What `Parse` does: exactly the tagged fields reached, as often as they are
    reached; the original back on any error; and when the caller's memory stays as
    it was. */
module StructParse {
  import opened Wrappers
  import opened TemplateEval
  import opened StructWalk
  import opened StructFrame
  import opened StructDepth
  import opened StructPass
  import opened StructSpots
  import opened StructStir
  import opened StructKept

  // ---- tagged fields behind pointers

  /** A tagged field that a walk of these fields alone would evaluate. */
  predicate HasTagged(fields: seq<Field>)
    decreases fields, 0
  {
    fields != [] && (TaggedWithin(fields[0]) || HasTagged(fields[1..]))
  }

  predicate TaggedWithin(f: Field)
    decreases f, 1
  {
    f.exported && (f.tag != "" || (f.content.Struct? && HasTagged(f.content.fields)))
  }

  ghost predicate NoneBehindPointers(cells: Cells, xs: seq<nat>) {
    forall a | a in xs && a in cells :: !HasTagged(cells[a])
  }

  /** If no visited cell has a tagged field the memory is left as it was. */
  lemma {:induction false} WalkLeavesMemory(rt: Runtime, data: Value, cells: Cells, fields: seq<Field>, depth: nat)
    requires NoneBehindPointers(cells, Visits(cells, fields, depth))
    ensures var r := Walk(rt, data, cells, fields, depth);
            r.cells == cells && (!HasTagged(fields) ==> r.value == fields)
    decreases depth, fields, 0
  {
    if fields != [] {
      assert forall a | a in VisitsOf(cells, fields[0], depth) :: a in Visits(cells, fields, depth);
      assert forall a | a in Visits(cells, fields[1..], depth) :: a in Visits(cells, fields, depth);
      WalkFieldLeavesMemory(rt, data, cells, fields[0], depth);
      WalkLeavesMemory(rt, data, cells, fields[1..], depth);
      assert [fields[0]] + fields[1..] == fields;
    }
  }

  lemma {:induction false} WalkFieldLeavesMemory(rt: Runtime, data: Value, cells: Cells, f: Field, depth: nat)
    requires NoneBehindPointers(cells, VisitsOf(cells, f, depth))
    ensures var r := WalkField(rt, data, cells, f, depth);
            r.cells == cells && (!TaggedWithin(f) ==> r.value == f)
    decreases depth, f, 1
  {
    if f.exported && f.tag == "" {
      match f.content
      case Struct(fs) => WalkLeavesMemory(rt, data, cells, fs, depth);
      case StructPtr(a) =>
        if a in cells && depth > 0 {
          var inner := Visits(cells, cells[a], depth - 1);
          assert VisitsOf(cells, f, depth) == [a] + inner;
          assert forall b | b in inner :: b in VisitsOf(cells, f, depth);
          assert a in VisitsOf(cells, f, depth);
          WalkLeavesMemory(rt, data, cells, cells[a], depth - 1);
          assert cells[a := cells[a]] == cells;
        }
      case _ =>
    }
  }

  // ---- Parse

  /** The argument: a struct, or a pointer to one. */
  datatype Input = ByValue(fields: seq<Field>) | ByPointer(addr: Option<nat>)

  datatype ParseError = NilPointer | Walking(error: WalkError)

  datatype Parsed = Parsed(cells: Cells, output: Input, error: Option<ParseError>)

  /** The struct that is copied before the walk. */
  function Original(cells: Cells, input: Input): seq<Field> {
    match input
    case ByValue(fs) => fs
    case ByPointer(a) => if a.Some? && a.value in cells then cells[a.value] else []
  }

  /** `spot` is where the copy is allocated. */
  function ParseResult(rt: Runtime, data: Value, cells: Cells, input: Input, spot: nat, depth: nat): Parsed {
    if input == ByPointer(None) then Parsed(cells, input, Some(NilPointer))
    else
      var r := Walk(rt, data, cells, Original(cells, input), depth);
      if r.error.Some? then Parsed(r.cells, input, Some(Walking(r.error.value)))
      else if input.ByValue? then Parsed(r.cells, ByValue(r.value), None)
      else Parsed(r.cells[spot := r.value], ByPointer(Some(spot)), None)
  }

  class Memory {
    var cells: Cells

    constructor (cells: Cells)
      ensures this.cells == cells
    {
      this.cells := cells;
    }
  }

  method ProcessStruct(rt: Runtime, data: Value, memory: Memory, fields: seq<Field>, depth: nat)
    returns (result: seq<Field>, error: Option<WalkError>)
    modifies memory
    ensures Walked(memory.cells, result, error) == Walk(rt, data, old(memory.cells), fields, depth)
    decreases depth, fields, 0
  {
    ghost var all := Walk(rt, data, memory.cells, fields, depth);
    result, error := [], None;
    assert fields[0..] == fields && [] + all.value == all.value;
    var i := 0;
    while i < |fields|
      invariant 0 <= i <= |fields| && error.None?
      invariant all == Preceded(result, Walk(rt, data, memory.cells, fields[i..], depth))
    {
      assert fields[i..][0] == fields[i] && fields[i..][1..] == fields[i + 1..];
      PrecededStep(rt, data, memory.cells, fields[i..], depth, result);
      var f;
      f, error := ProcessField(rt, data, memory, fields[i], depth);
      result := result + [f];
      if error.Some? {
        result := result + fields[i + 1..];
        return;
      }
      i := i + 1;
    }
    assert result + [] == result;
  }

  /** The outcome of a walk with finished fields put in front. */
  function Preceded(finished: seq<Field>, r: Walked<seq<Field>>): Walked<seq<Field>> {
    Walked(r.cells, finished + r.value, r.error)
  }

  lemma PrecededStep(rt: Runtime, data: Value, cells: Cells, fields: seq<Field>, depth: nat, finished: seq<Field>)
    requires fields != []
    ensures var first := WalkField(rt, data, cells, fields[0], depth);
            Preceded(finished, Walk(rt, data, cells, fields, depth))
            == if first.error.Some? then Walked(first.cells, (finished + [first.value]) + fields[1..], first.error)
               else Preceded(finished + [first.value], Walk(rt, data, first.cells, fields[1..], depth))
  {
    var first := WalkField(rt, data, cells, fields[0], depth);
    var tail := if first.error.Some? then fields[1..] else Walk(rt, data, first.cells, fields[1..], depth).value;
    assert finished + ([first.value] + tail) == (finished + [first.value]) + tail;
  }

  method ProcessField(rt: Runtime, data: Value, memory: Memory, f: Field, depth: nat)
    returns (result: Field, error: Option<WalkError>)
    modifies memory
    ensures Walked(memory.cells, result, error) == WalkField(rt, data, old(memory.cells), f, depth)
    decreases depth, f, 1
  {
    result, error := f, None;
    if f.exported {
      if f.tag == "" && f.content.Struct? {
        var fs;
        fs, error := ProcessStruct(rt, data, memory, f.content.fields, depth);
        result := f.(content := Struct(fs));
      } else if f.tag == "" && f.content.StructPtr? {
        var a := f.content.addr;
        if a in memory.cells {
          if depth == 0 {
            error := Some(TooDeep);
          } else {
            var fs;
            fs, error := ProcessStruct(rt, data, memory, memory.cells[a], depth - 1);
            memory.cells := memory.cells[a := fs];
          }
        }
      } else if f.tag != "" {
        var r := Rewrite(rt, data, f);
        result, error := r.0, r.1;
      }
    }
  }

  method Parse(rt: Runtime, data: Value, memory: Memory, input: Input, spot: nat, depth: nat)
    returns (output: Input, error: Option<ParseError>)
    requires spot !in memory.cells
    modifies memory
    ensures Parsed(memory.cells, output, error) == ParseResult(rt, data, old(memory.cells), input, spot, depth)
  {
    if input == ByPointer(None) {
      return input, Some(NilPointer);
    }
    var copy, failed := ProcessStruct(rt, data, memory, Original(memory.cells, input), depth);
    if failed.Some? {
      return input, Some(Walking(failed.value));
    }
    if input.ByValue? {
      return ByValue(copy), None;
    }
    memory.cells := memory.cells[spot := copy];
    return ByPointer(Some(spot)), None;
  }

  /** On any error the argument itself comes back; cells not visited keep their
      contents; and if no tagged field lies behind a nested pointer, every cell does. */
  lemma ParseFrame(rt: Runtime, data: Value, cells: Cells, input: Input, spot: nat, depth: nat)
    requires spot !in cells
    ensures var r := ParseResult(rt, data, cells, input, spot, depth);
            var visits := Visits(cells, Original(cells, input), depth);
            && (r.error.Some? ==> r.output == input)
            && (forall a | a in cells && a !in visits :: a in r.cells && r.cells[a] == cells[a])
            && (NoneBehindPointers(cells, visits) ==> forall a | a in cells :: a in r.cells && r.cells[a] == cells[a])
  {
    var fs := Original(cells, input);
    WalkFrame(rt, data, cells, fs, depth);
    if NoneBehindPointers(cells, Visits(cells, fs, depth)) {
      WalkLeavesMemory(rt, data, cells, fs, depth);
    }
  }

  /** `Parse` succeeds exactly when the depth covers the pointers, the struct can be
      rewritten, and every cell can be rewritten as often as it is visited.  Then the
      copy is the struct rewritten, and every cell is rewritten that often. */
  lemma ParseExactly(rt: Runtime, data: Value, cells: Cells, input: Input, spot: nat, depth: nat)
    requires spot !in cells && input != ByPointer(None)
    ensures var r, fs := ParseResult(rt, data, cells, input, spot, depth), Original(cells, input);
            var n := Count(cells, fs, depth);
            && (r.error.None? <==> Fits(cells, fs, depth) && Pass(rt, data, fs).Some? && CanRepeat(rt, data, cells, n))
            && (r.error.None? ==>
                  && Rewritten(rt, data, fs, Original(r.cells, r.output))
                  && forall a | a in cells :: a in r.cells && Repeat(rt, data, cells[a], n[a]) == Some(r.cells[a]))
  {
    WalkExactly(rt, data, cells, Original(cells, input), depth);
  }

  /** When it fails, it is at the first spot, in order, that fails on what the
      evaluations before it left; and that is how memory is left. */
  lemma ParseStops(rt: Runtime, data: Value, cells: Cells, input: Input, spot: nat, depth: nat) returns (k: nat, copy: seq<Field>)
    requires spot !in cells && input != ByPointer(None) && Fits(cells, Original(cells, input), depth)
    requires ParseResult(rt, data, cells, input, spot, depth).error.Some?
    ensures var r, fs := ParseResult(rt, data, cells, input, spot, depth), Original(cells, input);
            && r.output == input && r.error.value.Walking?
            && StopsAt(rt, data, cells, fs, Spots(cells, fs, depth), k, Walked(r.cells, copy, Some(r.error.value.error)))
  {
    var fs := Original(cells, input);
    WalkIsPlay(rt, data, cells, fs, depth);
    k := FailureStops(rt, data, cells, fs, Spots(cells, fs, depth));
    copy := Walk(rt, data, cells, fs, depth).value;
  }

  ghost predicate Keeps(cells: Cells, after: Cells) {
    forall a | a in cells :: a in after && after[a] == cells[a]
  }

  /** A successful call leaves the caller's memory as it was if and only if every
      visited cell comes back to itself when rewritten as often as it is visited. */
  lemma ParseKeepsExactly(rt: Runtime, data: Value, cells: Cells, input: Input, spot: nat, depth: nat)
    requires spot !in cells && ParseResult(rt, data, cells, input, spot, depth).error.None?
    ensures var fs := Original(cells, input);
            var n := Count(cells, fs, depth);
            Keeps(cells, ParseResult(rt, data, cells, input, spot, depth).cells)
            <==> forall a | a in cells && a in n :: Repeat(rt, data, cells[a], n[a]) == Some(cells[a])
  {
    ParseExactly(rt, data, cells, input, spot, depth);
    var r, n := ParseResult(rt, data, cells, input, spot, depth), Count(cells, Original(cells, input), depth);
    forall a | a in cells && a !in n ensures r.cells[a] == cells[a] {
      assert n[a] == 0 && Repeat(rt, data, cells[a], n[a]) == Some(r.cells[a]);
    }
  }

  /** A cell that is visited twice is evaluated twice, the second time on the first result. */
  lemma VisitedTwiceEvaluatedTwice(rt: Runtime, data: Value, cells: Cells, input: Input, spot: nat, depth: nat, a: nat)
    requires spot !in cells && input != ByPointer(None) && a in cells
    requires ParseResult(rt, data, cells, input, spot, depth).error.None?
    requires Count(cells, Original(cells, input), depth)[a] == 2
    ensures var r, once := ParseResult(rt, data, cells, input, spot, depth), Pass(rt, data, cells[a]);
            a in r.cells && once.Some? && Pass(rt, data, once.value) == Some(r.cells[a])
  {
    ParseExactly(rt, data, cells, input, spot, depth);
    RepeatOnce(rt, data, Pass(rt, data, cells[a]).value);
  }

  /** `Parse` leaves the caller's memory as it was, whatever the evaluator and the
      data and whether it fails or not, if and only if up to the first rejected field
      every tagged field behind a pointer is one no evaluator can change. */
  lemma ParseKeepsForEvery(cells: Cells, input: Input, spot: nat, depth: nat)
    requires spot !in cells && input != ByPointer(None) && Fits(cells, Original(cells, input), depth)
    ensures (forall rt: Runtime, data: Value :: Keeps(cells, ParseResult(rt, data, cells, input, spot, depth).cells))
            <==> Harmless(cells, Original(cells, input), Spots(cells, Original(cells, input), depth))
  {
    var fs := Original(cells, input);
    MemoryKeptExactly(cells, fs, depth);
    if Harmless(cells, fs, Spots(cells, fs, depth)) {
      forall rt: Runtime, data: Value ensures Keeps(cells, ParseResult(rt, data, cells, input, spot, depth).cells) {
        KeepsIsUnchanged(rt, data, cells, input, spot, depth);
      }
    } else {
      var rt: Runtime, data: Value :| Walk(rt, data, cells, fs, depth).cells != cells;
      KeepsIsUnchanged(rt, data, cells, input, spot, depth);
      assert !Keeps(cells, ParseResult(rt, data, cells, input, spot, depth).cells);
    }
  }

  lemma KeepsIsUnchanged(rt: Runtime, data: Value, cells: Cells, input: Input, spot: nat, depth: nat)
    requires spot !in cells && input != ByPointer(None)
    ensures Keeps(cells, ParseResult(rt, data, cells, input, spot, depth).cells)
            <==> Walk(rt, data, cells, Original(cells, input), depth).cells == cells
  {
    WalkFrame(rt, data, cells, Original(cells, input), depth);
  }

  /** Wherever a rejected field comes after one that memory is exposed at, some call
      hands the argument back with an error and has changed the caller's memory. */
  lemma ParseChangesOnError(cells: Cells, input: Input, spot: nat, depth: nat, k: nat, y: Spot) returns (rt: Runtime, data: Value)
    requires spot !in cells && input != ByPointer(None) && Fits(cells, Original(cells, input), depth)
    requires var fs := Original(cells, input);
             && Exposed(cells, fs, Spots(cells, fs, depth), k)
             && y in Spots(cells, fs, depth) && LookAt(cells, fs, y).Some? && Rejected(LookAt(cells, fs, y).value)
    ensures var r := ParseResult(rt, data, cells, input, spot, depth);
            r.error.Some? && r.output == input && !Keeps(cells, r.cells)
  {
    var fs := Original(cells, input);
    rt, data := FailureCanChangeMemory(cells, fs, depth, k, y);
    KeepsIsUnchanged(rt, data, cells, input, spot, depth);
  }
}
