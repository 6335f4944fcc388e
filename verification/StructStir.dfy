/** Which tagged fields no evaluator can change, and one evaluator that changes all
    the others for good. */
module StructStir {
  import opened Wrappers
  import opened TemplateSplit
  import opened TemplateEval
  import opened StructWalk

  /** No evaluator makes this field's rewriting succeed: the walk stops here. */
  predicate Rejected(f: Field) {
    || !Supported(f.content)
    || (f.tag != "template" && f.tag != "default")
    || (f.tag == "template" && f.content.MapOf?)
  }

  /** Whatever the evaluator, this field's rewriting succeeds and changes nothing:
      a text without expressions under `template`, nil under `default`. */
  predicate Fixed(f: Field) {
    && !Rejected(f)
    && match f.content
       case Str(t) => f.tag == "template" && Split(t).Plain?
       case Any(v) => if f.tag == "template" then v.Text? && Split(v.text).Plain? else v.Nil?
       case MapOf(_, v) => v.Nil?
       case _ => false
  }

  lemma RejectedFails(rt: Runtime, data: Value, f: Field)
    requires Rejected(f)
    ensures Rewrite(rt, data, f).1.Some? && Rewrite(rt, data, f).0 == f
  {
  }

  lemma FixedStays(rt: Runtime, data: Value, f: Field)
    requires Fixed(f)
    ensures Rewrite(rt, data, f) == (f, None)
  {
    var source := Source(rt, f.content);
    if f.tag == "template" {
      PrintSplit(source);
      assert Evaluated(rt.engine, data, source) == Success(source);
    }
  }

  /** A rewritten field keeps its name, its tag and the kind of its content. */
  lemma KindKept(rt: Runtime, data: Value, f: Field)
    ensures var g := Rewrite(rt, data, f).0;
            && g.name == f.name && g.exported == f.exported && g.tag == f.tag
            && Rejected(g) == Rejected(f)
            && (g.content.MapOf? <==> f.content.MapOf?) && (g.content.Str? <==> f.content.Str?)
  {
  }

  // ---- an evaluator that never fails

  /** Every expression evaluates to `v`, and every value is shown as `shown`. */
  function Stirring(v: Value, shown: string): Runtime {
    Runtime(Engine((e: string, env: map<string, Value>) => Success(v), (w: Value) => shown), (w: Value, typ: string) => true)
  }

  function Braces(s: string): nat {
    if s == "" then 0 else (if s[0] == '{' then 1 else 0) + Braces(s[1..])
  }

  lemma {:induction false} BracesAdd(x: string, y: string)
    ensures Braces(x + y) == Braces(x) + Braces(y)
  {
    if x == "" {
      assert x + y == y;
    } else {
      assert (x + y)[1..] == x[1..] + y;
      BracesAdd(x[1..], y);
    }
  }

  lemma BracesOfBraced(body: string)
    ensures Braces(Braced(body)) >= 2
  {
    assert Braced(body)[0] == '{' && Braced(body)[1..][0] == '{';
  }

  /** `v` can stand wherever a value is wanted, and its text is neither blank nor braced. */
  predicate Stirs(v: Value, shown: string) {
    v.Other? && TrimSpace(shown) != "" && Braces(shown) == 0
  }

  lemma NilText()
    ensures Braces("<nil>") == 0 && TrimSpace("<nil>") != ""
  {
    assert "<nil>"[1..] == "nil>" && "nil>"[1..] == "il>" && "il>"[1..] == "l>" && "l>"[1..] == ">" && ">"[1..] == "";
  }

  lemma StirredValue(v: Value, shown: string, data: Value, body: string)
    requires Stirs(v, shown)
    ensures ValueOf(Stirring(v, shown).engine, data, body).Success?
    ensures Braces(ValueOf(Stirring(v, shown).engine, data, body).value) == 0
  {
    NilText();
  }

  /** Evaluating a template then only takes braces away, and does if there is an expression. */
  lemma {:induction false} StirredTemplate(v: Value, shown: string, data: Value, t: Template)
    requires Stirs(v, shown)
    ensures var o := Evaluate(Meaning(Stirring(v, shown).engine, data), t);
            && o.errors == [] && Braces(o.text) <= Braces(Print(t))
            && (t.Hole? ==> Braces(o.text) < Braces(Print(t)))
  {
    match t
    case Plain(_) =>
    case Hole(before, body, rest) =>
      var f := Meaning(Stirring(v, shown).engine, data);
      StirredTemplate(v, shown, data, rest);
      StirredValue(v, shown, data, body);
      var text, more := f(body).value, Evaluate(f, rest).text;
      BracesAdd(before, text + more);
      BracesAdd(text, more);
      BracesOfBraced(body);
      BracesAdd(before, Braced(body) + Print(rest));
      BracesAdd(Braced(body), Print(rest));
  }

  lemma StirredText(v: Value, shown: string, data: Value, template: string)
    requires Stirs(v, shown)
    ensures var r := Evaluated(Stirring(v, shown).engine, data, template);
            && r.Success? && Braces(r.value) <= Braces(template)
            && (Split(template).Hole? ==> Braces(r.value) < Braces(template))
  {
    StirredTemplate(v, shown, data, Split(template));
    PrintSplit(template);
  }

  /** Where the evaluator takes a field it can change: to where it never comes back from. */
  predicate Away(v: Value, shown: string, f: Field, c: Content) {
    if f.tag == "template" then
      match f.content
      case Str(t) => c.Str? && Braces(c.text) < Braces(t)
      case Any(w) => c.Any? && c.value.Text? && (w.Text? ==> Braces(c.value.text) < Braces(w.text))
      case _ => false
    else
      match f.content
      case Str(t) => c == Str(shown) || (c == Str("<nil>") && TrimSpace(t) == "")
      case Any(_) => c == Any(v) || c == Any(Nil)
      case MapOf(typ, _) => c == MapOf(typ, v) || c == MapOf(typ, Nil)
      case _ => false
  }

  /** The evaluator gives the field another text or value than it has. */
  predicate Differs(v: Value, shown: string, f: Field) {
    match f.content
    case Str(t) => t != shown
    case Any(w) => w != v
    case MapOf(_, w) => w != v
    case _ => true
  }

  lemma AwayDiffers(v: Value, shown: string, f: Field, c: Content)
    requires !Rejected(f) && !Fixed(f) && Stirs(v, shown) && Differs(v, shown, f) && Away(v, shown, f, c)
    ensures c != f.content
  {
    NilText();
  }

  lemma StirringSucceeds(v: Value, shown: string, data: Value, f: Field)
    requires Stirs(v, shown) && !Rejected(f)
    ensures Rewrite(Stirring(v, shown), data, f).1.None?
  {
    StirredText(v, shown, data, Source(Stirring(v, shown), f.content));
  }

  lemma FirstAway(v: Value, shown: string, data: Value, f: Field)
    requires Stirs(v, shown) && !Rejected(f) && !Fixed(f)
    ensures Away(v, shown, f, Rewrite(Stirring(v, shown), data, f).0.content)
  {
    if f.tag == "template" {
      FirstAwayTemplate(v, shown, data, f);
    }
  }

  lemma FirstAwayTemplate(v: Value, shown: string, data: Value, f: Field)
    requires Stirs(v, shown) && !Rejected(f) && !Fixed(f) && f.tag == "template"
    ensures Away(v, shown, f, Rewrite(Stirring(v, shown), data, f).0.content)
  {
    StirredText(v, shown, data, Source(Stirring(v, shown), f.content));
  }

  lemma LaterAway(v: Value, shown: string, data: Value, f: Field, c: Content)
    requires Stirs(v, shown) && !Rejected(f) && Away(v, shown, f, c)
    ensures Away(v, shown, f, Rewrite(Stirring(v, shown), data, f.(content := c)).0.content)
  {
    NilText();
    StirredText(v, shown, data, Source(Stirring(v, shown), c));
  }

  /** For any field there is such an evaluator. */
  lemma SomeStirring(f: Field) returns (v: Value, shown: string)
    ensures Stirs(v, shown) && Differs(v, shown, f)
  {
    shown := if f.content == Str("a") then "b" else "a";
    v := if f.content.Any? && f.content.value == Other("a", "") then Other("b", "")
         else if f.content.MapOf? && f.content.value == Other("a", "") then Other("b", "") else Other("a", "");
    assert "a"[1..] == "" && "b"[1..] == "";
  }

  /** A field that is not rejected is left alone by every evaluator if and only if it is fixed. */
  lemma FixedExactly(f: Field)
    requires !Rejected(f)
    ensures (forall rt: Runtime, data: Value :: Rewrite(rt, data, f) == (f, None)) <==> Fixed(f)
  {
    if Fixed(f) {
      forall rt: Runtime, data: Value ensures Rewrite(rt, data, f) == (f, None) {
        FixedStays(rt, data, f);
      }
    } else {
      var v, shown := SomeStirring(f);
      FirstAway(v, shown, Nil, f);
      AwayDiffers(v, shown, f, Rewrite(Stirring(v, shown), Nil, f).0.content);
    }
  }
}
