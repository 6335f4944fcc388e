/** Evaluating a template: the replacement loop, and what it means. */
module TemplateEval {
  import opened Wrappers
  import opened TemplateScan
  import opened TemplateSplit

  /** What expressions evaluate to. */
  datatype Value = Nil | Text(text: string) | Dict(entries: map<string, Value>) | Other(kind: string, content: string)

  /** The expression library and the formatting of its other values are not interpreted here. */
  datatype Engine = Engine(run: (string, map<string, Value>) -> Result<Value>, show: Value -> string)

  /** fmt.Sprintf("%v", v) */
  function Show(engine: Engine, v: Value): string {
    match v
    case Nil => "<nil>"
    case Text(s) => s
    case _ => engine.show(v)
  }

  predicate IsSpace(c: char) {
    var n := c as int;
    || 9 <= n <= 13 || n == 0x20 || n == 0x85 || n == 0xA0 || n == 0x1680
    || 0x2000 <= n <= 0x200A || n == 0x2028 || n == 0x2029 || n == 0x202F || n == 0x205F || n == 0x3000
  }

  function TrimLeft(s: string): string {
    if s != "" && IsSpace(s[0]) then TrimLeft(s[1..]) else s
  }

  function TrimRight(s: string): string {
    if s != "" && IsSpace(s[|s| - 1]) then TrimRight(s[..|s| - 1]) else s
  }

  function TrimSpace(s: string): string { TrimRight(TrimLeft(s)) }

  /** The names an expression can use: `data`, and the entries of `data` if it is a map. */
  function Environment(data: Value): map<string, Value> {
    map["data" := data] + if data.Dict? then data.entries else map[]
  }

  function EvaluateExpression(engine: Engine, expression: string, data: Value): Result<Value> {
    if TrimSpace(expression) == "" then Success(Nil) else engine.run(expression, Environment(data))
  }

  /** What becomes of an expression's body: text, or the error it reports. */
  function ValueOf(engine: Engine, data: Value, body: string): Result<string> {
    var expression := TrimSpace(body);
    match EvaluateExpression(engine, expression, data)
    case Success(v) => Success(Show(engine, v))
    case Failure(err) => Failure("error in expression '" + expression + "': " + err)
  }

  function Meaning(engine: Engine, data: Value): string -> Result<string> {
    (body: string) => ValueOf(engine, data, body)
  }

  /** Text and the errors met on the way. */
  datatype Outcome = Outcome(text: string, errors: seq<string>)

  function Then(x: Outcome, y: Outcome): Outcome { Outcome(x.text + y.text, x.errors + y.errors) }

  function Literally(text: string): Outcome { Outcome(text, []) }

  /** A failing expression is left as it was. */
  function Replacement(f: string -> Result<string>, body: string): Outcome {
    match f(body)
    case Success(text) => Outcome(text, [])
    case Failure(err) => Outcome(Braced(body), [err])
  }

  function Evaluate(f: string -> Result<string>, t: Template): Outcome {
    match t
    case Plain(text) => Literally(text)
    case Hole(before, body, rest) => Then(Literally(before), Then(Replacement(f, body), Evaluate(f, rest)))
  }

  function Join(es: seq<string>, separator: string): string {
    if es == [] then "" else if |es| == 1 then es[0] else es[0] + separator + Join(es[1..], separator)
  }

  function Conclude(o: Outcome): Result<string> {
    if o.errors == [] then Success(o.text) else Failure("template evaluation errors: " + Join(o.errors, "; "))
  }

  function Evaluated(engine: Engine, data: Value, template: string): Result<string> {
    Conclude(Evaluate(Meaning(engine, data), Split(template)))
  }

  lemma ThenAssociative(x: Outcome, y: Outcome, z: Outcome)
    ensures Then(Then(x, y), z) == Then(x, Then(y, z))
  {
    assert (x.text + y.text) + z.text == x.text + (y.text + z.text);
    assert (x.errors + y.errors) + z.errors == x.errors + (y.errors + z.errors);
  }

  /** The scan-and-replace loop, collecting the errors on the way. */
  method EvaluateTemplate(engine: Engine, data: Value, template: string) returns (r: Result<string>)
    ensures r == Evaluated(engine, data, template)
  {
    var errors: seq<string> := [];
    var result := "";
    var rest := template;
    ghost var f := Meaning(engine, data);
    var found := FindFrom(rest, 0);
    while found.Some?
      invariant found == FindFrom(rest, 0)
      invariant Evaluate(f, Split(template)) == Then(Outcome(result, errors), Evaluate(f, Split(rest)))
      decreases |rest|
    {
      var before, matched, after := CutAt(rest, found.value);
      var replaced, failed := ReplaceMatch(engine, data, matched);
      NextMatch(f, rest, before, matched, after, Outcome(result, errors), Outcome(replaced, failed));
      result := result + (before + replaced);
      errors := errors + failed;
      rest := after;
      found := FindFrom(rest, 0);
    }
    assert errors + [] == errors;
    r := Conclude(Outcome(result + rest, errors));
  }

  method CutAt(s: string, m: (nat, nat)) returns (before: string, matched: string, after: string)
    requires FindFrom(s, 0) == Some(m)
    ensures |matched| >= 4 && matched == Braced(matched[2..|matched| - 2])
    ensures Split(s) == Hole(before, matched[2..|matched| - 2], Split(after)) && |after| < |s|
  {
    before, matched, after := s[..m.0], s[m.0..m.1], s[m.1..];
    ghost var before', body, after' := TakeFirst(s);
    BracedCharacters(body);
    SlicesOf(before', Braced(body), after', s);
  }

  lemma NextMatch(f: string -> Result<string>, s: string, before: string, matched: string, after: string,
                  done: Outcome, replacement: Outcome)
    requires |matched| >= 4 && Split(s) == Hole(before, matched[2..|matched| - 2], Split(after))
    requires replacement == Replacement(f, matched[2..|matched| - 2])
    ensures Then(done, Evaluate(f, Split(s)))
         == Then(Outcome(done.text + (before + replacement.text), done.errors + replacement.errors), Evaluate(f, Split(after)))
  {
    var rest := Evaluate(f, Split(after));
    ThenAssociative(Literally(before), replacement, rest);
    ThenAssociative(done, Then(Literally(before), replacement), rest);
    assert [] + replacement.errors == replacement.errors;
  }

  /** The replacement callback for one match. */
  method ReplaceMatch(engine: Engine, data: Value, matched: string) returns (text: string, errors: seq<string>)
    requires |matched| >= 4 && matched == Braced(matched[2..|matched| - 2])
    ensures Outcome(text, errors) == Replacement(Meaning(engine, data), matched[2..|matched| - 2])
  {
    var expression := TrimSpace(matched[2..|matched| - 2]);
    match EvaluateExpression(engine, expression, data) {
      case Success(v) => text, errors := Show(engine, v), [];
      case Failure(err) => text, errors := matched, ["error in expression '" + expression + "': " + err];
    }
  }

  // ---- what evaluation means

  /** The bodies of the expressions, in order. */
  function Bodies(t: Template): seq<string> {
    match t
    case Plain(_) => []
    case Hole(_, body, rest) => [body] + Bodies(rest)
  }

  /** The template with text put in place of its expressions. */
  function Fill(t: Template, texts: seq<string>): string
    requires |texts| == |Bodies(t)|
  {
    match t
    case Plain(text) => text
    case Hole(before, _, rest) => before + (texts[0] + Fill(rest, texts[1..]))
  }

  /** The errors of those bodies that fail, in order. */
  function Failures(f: string -> Result<string>, bodies: seq<string>): seq<string> {
    if bodies == [] then [] else
      (match f(bodies[0]) case Success(_) => [] case Failure(err) => [err]) + Failures(f, bodies[1..])
  }

  /** Errors stand in the order of their expressions, one for each that fails. */
  lemma {:induction false} ErrorsInOrder(f: string -> Result<string>, t: Template)
    ensures Evaluate(f, t).errors == Failures(f, Bodies(t))
    ensures Evaluate(f, t).errors == [] <==> forall b | b in Bodies(t) :: f(b).Success?
  {
    if t.Hole? {
      ErrorsInOrder(f, t.rest);
      assert Bodies(t)[0] == t.body && Bodies(t)[1..] == Bodies(t.rest);
      assert forall b :: b in Bodies(t) <==> b == t.body || b in Bodies(t.rest);
    }
  }

  lemma {:induction false} FilledIn(f: string -> Result<string>, t: Template, texts: seq<string>)
    requires |texts| == |Bodies(t)| && forall i | 0 <= i < |texts| :: f(Bodies(t)[i]) == Success(texts[i])
    ensures Evaluate(f, t) == Literally(Fill(t, texts))
  {
    if t.Hole? {
      assert Bodies(t)[0] == t.body && Bodies(t)[1..] == Bodies(t.rest);
      FilledIn(f, t.rest, texts[1..]);
    }
  }

  /** The meaning of a template: it evaluates exactly when each of its
      expressions does, and then to its text with their values filled in. */
  lemma TemplateMeaning(engine: Engine, data: Value, template: string)
    ensures var f, t := Meaning(engine, data), Split(template);
            && (Evaluated(engine, data, template).Success? <==> forall b | b in Bodies(t) :: f(b).Success?)
            && (forall texts: seq<string> |
                  |texts| == |Bodies(t)| && (forall i | 0 <= i < |texts| :: f(Bodies(t)[i]) == Success(texts[i])) ::
                    Evaluated(engine, data, template) == Success(Fill(t, texts)))
  {
    var f, t := Meaning(engine, data), Split(template);
    ErrorsInOrder(f, t);
    forall texts: seq<string> |
        |texts| == |Bodies(t)| && (forall i | 0 <= i < |texts| :: f(Bodies(t)[i]) == Success(texts[i]))
      ensures Evaluated(engine, data, template) == Success(Fill(t, texts))
    {
      FilledIn(f, t, texts);
    }
  }

  lemma {:induction false} FillBraced(t: Template, texts: seq<string>)
    requires |texts| == |Bodies(t)| && forall i | 0 <= i < |texts| :: texts[i] == Braced(Bodies(t)[i])
    ensures Fill(t, texts) == Print(t)
  {
    if t.Hole? {
      assert Bodies(t)[0] == t.body && Bodies(t)[1..] == Bodies(t.rest);
      FillBraced(t.rest, texts[1..]);
    }
  }

  /** Values are not scanned again: expressions whose values are their own source
      text reproduce the template, braces and all. */
  lemma ValuesAreNotRescanned(engine: Engine, data: Value, template: string)
    requires forall b | b in Bodies(Split(template)) :: Meaning(engine, data)(b) == Success(Braced(b))
    ensures Evaluated(engine, data, template) == Success(template)
  {
    var bodies := Bodies(Split(template));
    var texts := seq(|bodies|, i requires 0 <= i < |bodies| => Braced(bodies[i]));
    forall i | 0 <= i < |texts| ensures Meaning(engine, data)(bodies[i]) == Success(texts[i]) {
      assert bodies[i] in bodies;
    }
    FilledIn(Meaning(engine, data), Split(template), texts);
    FillBraced(Split(template), texts);
    PrintSplit(template);
  }

  // ---- the message of a failure

  /** Messages stand in order, with the separator between each two. */
  lemma {:induction false} JoinAppends(xs: seq<string>, ys: seq<string>, separator: string)
    requires xs != [] && ys != []
    ensures Join(xs + ys, separator) == Join(xs, separator) + separator + Join(ys, separator)
  {
    if |xs| == 1 {
      assert (xs + ys)[0] == xs[0] && (xs + ys)[1..] == ys;
    } else {
      assert (xs + ys)[0] == xs[0] && (xs + ys)[1..] == xs[1..] + ys;
      JoinAppends(xs[1..], ys, separator);
      var x, y, z := xs[0] + separator, Join(xs[1..], separator), separator + Join(ys, separator);
      assert (x + y) + z == x + (y + z);
    }
  }

  lemma JoinOne(x: string, separator: string)
    ensures Join([x], separator) == x
  {
  }

  /** A failing template reports the errors of its failing bodies, all and in order. */
  lemma FailureMessage(engine: Engine, data: Value, template: string)
    ensures var r, failures := Evaluated(engine, data, template), Failures(Meaning(engine, data), Bodies(Split(template)));
            && (r.Failure? <==> failures != [])
            && (r.Failure? ==> r.error == "template evaluation errors: " + Join(failures, "; "))
  {
    ErrorsInOrder(Meaning(engine, data), Split(template));
  }
}
