/** What an expression is handed: with an engine that looks names up, a name is worth
    what the data binds it to, and `data` is worth the data. */
module TemplateLookup {
  import opened Wrappers
  import opened TemplateSplit
  import opened TemplateEval

  // ---- blanks

  predicate Blank(s: string) { forall i | 0 <= i < |s| :: IsSpace(s[i]) }

  /** Neither blank nor with a blank at either end. */
  predicate Trimmed(s: string) { s != "" && !IsSpace(s[0]) && !IsSpace(s[|s| - 1]) }

  /** Of the ASCII characters these six are space; of the others two below 256. */
  lemma SpacesBelow256(c: char)
    requires c as int < 256
    ensures IsSpace(c) <==> c in {'\t', '\n', '\U{000B}', '\U{000C}', '\r', ' ', '\U{0085}', '\U{00A0}'}
  {
  }

  lemma {:induction false} TrimsLeft(l: string, s: string)
    requires Blank(l) && (s != "" ==> !IsSpace(s[0]))
    ensures TrimLeft(l + s) == s
  {
    if l == "" {
      assert l + s == s;
    } else {
      assert (l + s)[0] == l[0] && (l + s)[1..] == l[1..] + s;
      TrimsLeft(l[1..], s);
    }
  }

  lemma {:induction false} TrimsRight(s: string, r: string)
    requires Blank(r) && (s != "" ==> !IsSpace(s[|s| - 1]))
    ensures TrimRight(s + r) == s
  {
    if r == "" {
      assert s + r == s;
    } else {
      var n := |r| - 1;
      assert (s + r)[|s + r| - 1] == r[n] && (s + r)[..|s + r| - 1] == s + r[..n];
      TrimsRight(s, r[..n]);
    }
  }

  /** Trimming takes the blanks at both ends and nothing else. */
  lemma TrimExactly(l: string, s: string, r: string)
    requires Blank(l) && Blank(r) && Trimmed(s)
    ensures TrimSpace(l + (s + r)) == s
  {
    assert (s + r)[0] == s[0];
    TrimsLeft(l, s + r);
    TrimsRight(s, r);
  }

  lemma TrimBlank(s: string)
    requires Blank(s)
    ensures TrimSpace(s) == ""
  {
    TrimsLeft(s, "");
    assert s + "" == s;
  }

  // ---- names

  /** What the names of an expression stand for. */
  lemma EnvironmentExactly(data: Value, name: string)
    ensures name in Environment(data) <==> name == "data" || (data.Dict? && name in data.entries)
    ensures data.Dict? && name in data.entries ==> Environment(data)[name] == data.entries[name]
    ensures name == "data" && !(data.Dict? && name in data.entries) ==> Environment(data)[name] == data
  {
  }

  /** `v` is what the data gives for the name. */
  predicate Resolves(data: Value, name: string, v: Value) {
    if data.Dict? && name in data.entries then v == data.entries[name] else name == "data" && v == data
  }

  /** An engine that looks names up. */
  function Lookup(show: Value -> string): Engine {
    Engine((e: string, env: map<string, Value>) => if e in env then Success(env[e]) else Failure("unknown name"), show)
  }

  /** A name evaluates to what the data gives for it, and fails if it gives nothing. */
  lemma NameExactly(show: Value -> string, data: Value, name: string, v: Value)
    requires TrimSpace(name) != ""
    ensures EvaluateExpression(Lookup(show), name, data) == Success(v) <==> Resolves(data, name, v)
  {
    EnvironmentExactly(data, name);
  }

  lemma BlankIsNil(engine: Engine, data: Value, s: string)
    requires Blank(s)
    ensures EvaluateExpression(engine, s, data) == Success(Nil)
  {
    TrimBlank(s);
  }

  /** How a value is written into text. */
  predicate Shows(show: Value -> string, v: Value, text: string) {
    match v
    case Nil => text == "<nil>"
    case Text(s) => text == s
    case _ => text == show(v)
  }

  lemma NothingMatchesEmpty()
    ensures NoMatch("") && !OpenEnded("")
  {
  }

  lemma TrimmedIsItself(name: string)
    requires Trimmed(name)
    ensures TrimSpace(name) == name
  {
    TrimExactly("", name, "");
    assert "" + (name + "") == name;
  }

  lemma ValueOfName(show: Value -> string, data: Value, body: string, name: string)
    requires TrimSpace(body) == name && TrimSpace(name) == name && name != ""
    ensures var x := Meaning(Lookup(show), data)(body);
            && (forall v, text | Resolves(data, name, v) && Shows(show, v, text) :: x == Success(text))
            && ((forall v :: !Resolves(data, name, v)) ==> x == Failure("error in expression '" + name + "': unknown name"))
  {
    var r := EvaluateExpression(Lookup(show), name, data);
    forall v | Resolves(data, name, v) ensures r == Success(v) {
      NameExactly(show, data, name, v);
    }
    if r.Success? {
      NameExactly(show, data, name, r.value);
    }
  }

  /** Evaluating text, one expression, and text. */
  lemma OneHole(f: string -> Result<string>, before: string, body: string, after: string)
    ensures var o := Conclude(Evaluate(f, Hole(before, body, Plain(after))));
            match f(body)
            case Success(text) => o == Success(before + (text + after))
            case Failure(err) => o == Failure("template evaluation errors: " + err)
  {
    var rest := Then(Replacement(f, body), Literally(after));
    assert Evaluate(f, Plain(after)) == Literally(after);
    assert Evaluate(f, Hole(before, body, Plain(after))) == Then(Literally(before), rest);
    var errors := Replacement(f, body).errors;
    assert errors + [] == errors && [] + errors == errors;
    if f(body).Failure? {
      JoinOne(f(body).error, "; ");
    }
  }

  lemma SplitsInOne(before: string, body: string, after: string)
    requires NoMatch(before) && !OpenEnded(before) && NoMatch(after) && body != "" && '}' !in body
    ensures Split(before + (Braced(body) + after)) == Hole(before, body, Plain(after))
  {
    SplitPrintCanonical(Plain(after));
    SplitPrintCanonical(Hole(before, body, Plain(after)));
  }

  lemma TemplateOfBody(engine: Engine, data: Value, before: string, body: string, after: string)
    requires NoMatch(before) && !OpenEnded(before) && NoMatch(after) && body != "" && '}' !in body
    ensures match Meaning(engine, data)(body)
            case Success(text) => Evaluated(engine, data, before + (Braced(body) + after)) == Success(before + (text + after))
            case Failure(err) =>
              Evaluated(engine, data, before + (Braced(body) + after)) == Failure("template evaluation errors: " + err)
  {
    SplitsInOne(before, body, after);
    OneHole(Meaning(engine, data), before, body, after);
  }

  /** A template of one name, blanks around it and text around that, gives the text
      with the name's value written in, or reports the name it does not know. */
  lemma TemplateOfName(show: Value -> string, data: Value, before: string, l: string, name: string, r: string, after: string)
    requires NoMatch(before) && !OpenEnded(before) && NoMatch(after)
    requires Blank(l) && Blank(r) && Trimmed(name) && '}' !in l + (name + r)
    ensures var x := Evaluated(Lookup(show), data, before + (Braced(l + (name + r)) + after));
            && (forall v, text | Resolves(data, name, v) && Shows(show, v, text) :: x == Success(before + (text + after)))
            && ((forall v :: !Resolves(data, name, v)) ==>
                  x == Failure("template evaluation errors: " + ("error in expression '" + name + "': unknown name")))
  {
    var body := l + (name + r);
    assert |body| >= |name|;
    TrimExactly(l, name, r);
    TrimmedIsItself(name);
    ValueOfName(show, data, body, name);
    TemplateOfBody(Lookup(show), data, before, body, after);
  }
}
