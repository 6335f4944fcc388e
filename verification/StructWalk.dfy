/** Rewriting the tagged fields of a struct: copy, then walk in place. */
module StructWalk {
  import opened Wrappers
  import opened TemplateEval

  /** What a field holds, by the kinds the walker distinguishes.  A pointer leads
      to a cell of the memory; slices, numbers and the like are `Plain`. */
  datatype Content =
    | Str(text: string)
    | Any(value: Value)
    | MapOf(typ: string, value: Value)
    | Struct(fields: seq<Field>)
    | StructPtr(addr: nat)
    | Plain(what: string)

  datatype Field = Field(name: string, exported: bool, tag: string, content: Content)

  type Cells = map<nat, seq<Field>>

  datatype WalkError = Unsupported(field: string) | InField(field: string, cause: string) | TooDeep

  /** May a value be assigned to a map field of that type?  Never a string; otherwise left to the runtime. */
  datatype Runtime = Runtime(engine: Engine, assignable: (Value, string) -> bool)

  predicate Supported(c: Content) { c.Str? || c.Any? || c.MapOf? }

  /** The field's present value, read as an expression. */
  function Source(rt: Runtime, c: Content): string
    requires Supported(c)
  {
    if c.Str? then c.text else if c.value.Nil? then "" else Show(rt.engine, c.value)
  }

  function ValueFor(rt: Runtime, data: Value, tag: string, expression: string): Result<Value> {
    if tag == "template" then
      (match Evaluated(rt.engine, data, expression)
       case Success(t) => Success(Text(t))
       case Failure(e) => Failure(e))
    else if tag == "default" then EvaluateExpression(rt.engine, expression, data)
    else Failure("unknown expression type: " + tag)
  }

  /** setFieldValue */
  function Assign(rt: Runtime, c: Content, v: Value): Result<Content>
    requires Supported(c)
  {
    match c
    case Str(_) => Success(Str(Show(rt.engine, v)))
    case Any(_) => Success(Any(v))
    case MapOf(typ, _) =>
      if v.Nil? || (!v.Text? && rt.assignable(v, typ)) then Success(MapOf(typ, v)) else Failure("cannot assign")
  }

  function EvaluateField(rt: Runtime, data: Value, tag: string, c: Content): Result<Content>
    requires Supported(c)
  {
    match ValueFor(rt, data, tag, Source(rt, c))
    case Success(v) => Assign(rt, c, v)
    case Failure(e) => Failure(e)
  }

  /** What becomes of a tagged field. */
  function Rewrite(rt: Runtime, data: Value, f: Field): (Field, Option<WalkError>) {
    if !Supported(f.content) then (f, Some(Unsupported(f.name)))
    else match EvaluateField(rt, data, f.tag, f.content)
      case Success(c) => (f.(content := c), None)
      case Failure(e) => (f, Some(InField(f.name, e)))
  }

  datatype Walked<T> = Walked(cells: Cells, value: T, error: Option<WalkError>)

  /** processStruct, following at most `depth` nested pointers.  Each field is
      handled in turn and the first error stops the walk, with what was written
      before it left in place. */
  function Walk(rt: Runtime, data: Value, cells: Cells, fields: seq<Field>, depth: nat): (r: Walked<seq<Field>>)
    ensures |r.value| == |fields|
    decreases depth, fields, 0
  {
    if fields == [] then Walked(cells, [], None)
    else
      var first := WalkField(rt, data, cells, fields[0], depth);
      if first.error.Some? then Walked(first.cells, [first.value] + fields[1..], first.error)
      else
        var rest := Walk(rt, data, first.cells, fields[1..], depth);
        Walked(rest.cells, [first.value] + rest.value, rest.error)
  }

  function WalkField(rt: Runtime, data: Value, cells: Cells, f: Field, depth: nat): Walked<Field>
    decreases depth, f, 1
  {
    if !f.exported then Walked(cells, f, None)
    else if f.tag != "" then
      var r := Rewrite(rt, data, f);
      Walked(cells, r.0, r.1)
    else match f.content
      case Struct(fs) =>
        var r := Walk(rt, data, cells, fs, depth);
        Walked(r.cells, f.(content := Struct(r.value)), r.error)
      case StructPtr(a) =>
        if a !in cells then Walked(cells, f, None)
        else if depth == 0 then Walked(cells, f, Some(TooDeep))
        else
          var r := Walk(rt, data, cells, cells[a], depth - 1);
          Walked(r.cells[a := r.value], f, r.error)
      case _ => Walked(cells, f, None)
  }
}
