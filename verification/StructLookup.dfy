/** What a tagged field becomes, by tag and kind, with an engine that looks names up. */
module StructLookup {
  import opened Wrappers
  import opened TemplateSplit
  import opened TemplateEval
  import opened TemplateLookup
  import opened StructWalk

  /** Under `default` a string field that holds a name takes its value written out, an
      `any` field the value itself, and a map field the value if it can be assigned. */
  lemma DefaultByName(rt: Runtime, data: Value, f: Field, name: string, v: Value, text: string)
    requires rt.engine == Lookup(rt.engine.show) && f.tag == "default" && Supported(f.content)
    requires Trimmed(name) && Resolves(data, name, v) && Shows(rt.engine.show, v, text)
    requires Source(rt, f.content) == name
    ensures match f.content
            case Str(_) => Rewrite(rt, data, f) == (f.(content := Str(text)), None)
            case Any(_) => Rewrite(rt, data, f) == (f.(content := Any(v)), None)
            case MapOf(typ, _) =>
              if v.Nil? || (!v.Text? && rt.assignable(v, typ)) then Rewrite(rt, data, f) == (f.(content := MapOf(typ, v)), None)
              else Rewrite(rt, data, f) == (f, Some(InField(f.name, "cannot assign")))
  {
    TrimmedIsItself(name);
    NameExactly(rt.engine.show, data, name, v);
  }

  /** Under `template` a field that holds a name in braces takes the value written out. */
  lemma TemplateByName(rt: Runtime, data: Value, f: Field, name: string, v: Value, text: string)
    requires rt.engine == Lookup(rt.engine.show) && f.tag == "template"
    requires Trimmed(name) && '}' !in name && Resolves(data, name, v) && Shows(rt.engine.show, v, text)
    ensures f.content == Str(Braced(name)) ==> Rewrite(rt, data, f) == (f.(content := Str(text)), None)
    ensures f.content == Any(Text(Braced(name))) ==> Rewrite(rt, data, f) == (f.(content := Any(Text(text))), None)
  {
    NothingMatchesEmpty();
    assert "" + (name + "") == name && "" + (Braced(name) + "") == Braced(name) && "" + (text + "") == text;
    TemplateOfName(rt.engine.show, data, "", "", name, "", "");
  }

  /** What a field is read as: its text, its value written out, or nothing for nil. */
  lemma SourceExactly(rt: Runtime, c: Content)
    requires Supported(c)
    ensures match c
            case Str(t) => Source(rt, c) == t
            case Any(v) => if v.Nil? then Source(rt, c) == "" else Shows(rt.engine.show, v, Source(rt, c))
            case MapOf(_, v) => if v.Nil? then Source(rt, c) == "" else Shows(rt.engine.show, v, Source(rt, c))
  {
  }

  /** A field that cannot be rewritten is left alone and its error names it. */
  lemma ErrorsNameTheField(rt: Runtime, data: Value, f: Field)
    ensures var (g, e) := Rewrite(rt, data, f);
            && (e.Some? ==> g == f && (e.value == Unsupported(f.name) || (e.value.InField? && e.value.field == f.name)))
            && (e == Some(Unsupported(f.name)) <==> !f.content.Str? && !f.content.Any? && !f.content.MapOf?)
  {
  }

  /** Why a field cannot be rewritten: its template or expression fails, its tag names
      no kind of expression, or the value cannot be assigned to the map. */
  lemma CauseExactly(rt: Runtime, data: Value, f: Field, cause: string)
    requires Supported(f.content)
    ensures Rewrite(rt, data, f).1 == Some(InField(f.name, cause)) <==>
              var text := Source(rt, f.content);
              if f.tag == "template" then
                Evaluated(rt.engine, data, text) == Failure(cause)
                || (f.content.MapOf? && Evaluated(rt.engine, data, text).Success? && cause == "cannot assign")
              else if f.tag == "default" then
                var x := EvaluateExpression(rt.engine, text, data);
                x == Failure(cause)
                || (f.content.MapOf? && x.Success? && !x.value.Nil? && cause == "cannot assign"
                    && (x.value.Text? || !rt.assignable(x.value, f.content.typ)))
              else cause == "unknown expression type: " + f.tag
  {
  }
}
