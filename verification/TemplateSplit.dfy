/** A template taken apart into text and expressions, and back: which parts come
    out of a template, and that nothing is lost or added. */
module TemplateSplit {
  import opened Wrappers
  import opened TemplateScan

  /** Plain text, or text, the body of an expression, and what follows it. */
  datatype Template = Plain(text: string) | Hole(before: string, body: string, rest: Template)

  function Braced(body: string): string { "{{" + body + "}}" }

  /** The characters of `s` from position `i` up to `j`. */
  function Between(s: string, i: nat, j: nat): (t: string)
    requires i <= j <= |s|
    ensures |t| == j - i
    decreases j - i
  {
    if i == j then "" else [s[i]] + Between(s, i + 1, j)
  }

  lemma {:induction false} BetweenIsSlice(s: string, i: nat, j: nat)
    requires i <= j <= |s|
    ensures Between(s, i, j) == s[i..j]
    decreases j - i
  {
    if i < j {
      BetweenIsSlice(s, i + 1, j);
      assert s[i..j] == [s[i]] + s[i + 1..j];
    }
  }

  function Split(s: string): Template
    decreases |s|
  {
    match FindFrom(s, 0)
    case None => Plain(s)
    case Some(m) => Hole(Between(s, 0, m.0), Between(s, m.0 + 2, m.1 - 2), Split(Between(s, m.1, |s|)))
  }

  function Print(t: Template): string {
    match t
    case Plain(text) => text
    case Hole(before, body, rest) => before + (Braced(body) + Print(rest))
  }

  // ---- the first match of a string

  /** Bounds of the expression printed between `before` and what follows. */
  function Span(before: string, body: string): (nat, nat) { (|before|, |before| + |body| + 4) }

  lemma MatchSlice(s: string, a: nat, e: nat)
    requires Matches(s, a, e)
    ensures s[a..e] == Braced(s[a + 2..e - 2]) && '}' !in s[a + 2..e - 2]
  {
    assert s[a..a + 2] == "{{" && s[e - 2..e] == "}}";
    assert s[a..e] == s[a..a + 2] + s[a + 2..e - 2] + s[e - 2..e];
  }

  /** What a match consists of. */
  lemma MatchText(s: string, a: nat, e: nat)
    requires Matches(s, a, e)
    ensures Between(s, a, e) == Braced(Between(s, a + 2, e - 2)) && '}' !in Between(s, a + 2, e - 2)
  {
    MatchSlice(s, a, e);
    BetweenIsSlice(s, a, e);
    BetweenIsSlice(s, a + 2, e - 2);
  }

  lemma InThree(s: string, a: nat, e: nat)
    requires a <= e <= |s|
    ensures s == Between(s, 0, a) + (Between(s, a, e) + Between(s, e, |s|))
  {
    BetweenIsSlice(s, 0, a);
    BetweenIsSlice(s, a, e);
    BetweenIsSlice(s, e, |s|);
  }

  /** The pieces around the first match. */
  lemma TakeFirst(s: string) returns (before: string, body: string, after: string)
    requires FindFrom(s, 0).Some?
    ensures s == before + (Braced(body) + after) && FindFrom(s, 0) == Some(Span(before, body))
    ensures body != "" && '}' !in body && |after| < |s|
    ensures Split(s) == Hole(before, body, Split(after))
  {
    Found(s, 0);
    var a, e := FindFrom(s, 0).value.0, FindFrom(s, 0).value.1;
    MatchText(s, a, e);
    InThree(s, a, e);
    before, body, after := Between(s, 0, a), Between(s, a + 2, e - 2), Between(s, e, |s|);
  }

  /** Text put together from such pieces splits into them. */
  lemma SplitPieces(before: string, body: string, after: string)
    requires FindFrom(before + (Braced(body) + after), 0) == Some(Span(before, body))
    ensures Split(before + (Braced(body) + after)) == Hole(before, body, Split(after))
  {
    var m := Span(before, body);
    PiecesApart(before, body, after, before + (Braced(body) + after), m.0 + 2, m.1 - 2, m.1);
  }

  lemma SlicesOf(x: string, y: string, z: string, s: string)
    requires s == x + (y + z)
    ensures |s| == |x| + |y| + |z|
    ensures s[..|x|] == x && s[|x|..|x| + |y|] == y && s[|x| + |y|..] == z
  {
  }

  lemma BetweenIs(s: string, i: nat, j: nat, y: string)
    requires i + |y| == j <= |s| && forall k: nat | k < |y| :: s[i + k] == y[k]
    ensures Between(s, i, j) == y
  {
    BetweenIsSlice(s, i, j);
  }

  lemma CharactersAt(before: string, l: string, body: string, r: string, after: string, s: string, i: nat, j: nat, e: nat)
    requires s == before + (((l + body) + r) + after) && i == |before| + |l| && j == i + |body| && e == j + |r|
    ensures |s| == e + |after|
    ensures forall k: nat | k < |before| :: s[0 + k] == before[k]
    ensures forall k: nat | k < |body| :: s[i + k] == body[k]
    ensures forall k: nat | k < |after| :: s[e + k] == after[k]
  {
  }

  lemma PiecesApart(before: string, body: string, after: string, s: string, i: nat, j: nat, e: nat)
    requires s == before + (Braced(body) + after) && i == |before| + 2 && j == i + |body| && e == j + 2
    ensures |s| == e + |after|
    ensures Between(s, 0, |before|) == before && Between(s, i, j) == body && Between(s, e, |s|) == after
  {
    CharactersAt(before, "{{", body, "}}", after, s, i, j, e);
    BetweenIs(s, 0, |before|, before);
    BetweenIs(s, i, j, body);
    BetweenIs(s, e, |s|, after);
  }

  lemma BracedCharacters(body: string)
    ensures |Braced(body)| == |body| + 4 && Braced(body)[2..|body| + 2] == body
    ensures Braced(body)[0] == Braced(body)[1] == '{' && Braced(body)[|body| + 2] == Braced(body)[|body| + 3] == '}'
  {
  }

  lemma Associative(x: string, y: string, z: string)
    ensures (x + y) + z == x + (y + z)
  {
  }

  /** Splitting loses nothing. */
  lemma {:induction false} PrintSplit(s: string)
    ensures Print(Split(s)) == s
    decreases |s|
  {
    if FindFrom(s, 0).Some? {
      var before, body, after := TakeFirst(s);
      PrintSplit(after);
    }
  }

  // ---- the split and the scan

  lemma {:induction false} FirstCloseShift(u: string, t: string, i: nat)
    requires i <= |t|
    ensures FirstClose(u + t, |u| + i) == |u| + FirstClose(t, i)
    decreases |t| - i
  {
    if i < |t| {
      assert (u + t)[|u| + i] == t[i];
      if t[i] != '}' {
        FirstCloseShift(u, t, i + 1);
      }
    }
  }

  lemma MatchEndShift(u: string, t: string, x: nat)
    ensures MatchEnd(u + t, |u| + x) == match MatchEnd(t, x) { case None => None case Some(e) => Some(|u| + e) }
  {
    if x + 2 <= |t| {
      FirstCloseShift(u, t, x + 2);
      assert forall i: nat | i < |t| :: (u + t)[|u| + i] == t[i];
    }
  }

  function Shifted(r: Option<(nat, nat)>, n: nat): Option<(nat, nat)> {
    match r
    case None => None
    case Some(m) => Some((n + m.0, n + m.1))
  }

  lemma {:induction false} FindShift(u: string, t: string, x: nat)
    ensures FindFrom(u + t, |u| + x) == Shifted(FindFrom(t, x), |u|)
    decreases |t| - x
  {
    MatchEndShift(u, t, x);
    if x < |t| && MatchEnd(t, x).None? {
      FindShift(u, t, x + 1);
    }
  }

  /** Where the expressions of a template stand if it is printed from `at` on. */
  function Spans(t: Template, at: nat): seq<(nat, nat)> {
    match t
    case Plain(_) => []
    case Hole(before, body, rest) =>
      var a := at + |before|;
      [(a, a + |body| + 4)] + Spans(rest, a + |body| + 4)
  }

  lemma ScanSome(s: string, p: nat, m: (nat, nat))
    requires FindFrom(s, p) == Some(m)
    ensures Scan(s, p) == [m] + Scan(s, m.1)
  {
  }

  lemma SpansHole(before: string, body: string, rest: Template, at: nat, a: nat, e: nat)
    requires a == at + |before| && e == a + |body| + 4
    ensures Spans(Hole(before, body, rest), at) == [(a, e)] + Spans(rest, e)
  {
  }

  lemma FindIn(s: string, u: string, t: string, n: nat)
    requires s == u + t && n == |u|
    ensures FindFrom(s, n) == Shifted(FindFrom(t, 0), n)
  {
    FindShift(u, t, 0);
  }

  /** The expressions taken out are those the scan picks, where it picks them. */
  lemma {:induction false} SplitFollowsScan(s: string, u: string, t: string, n: nat)
    requires s == u + t && n == |u|
    ensures Scan(s, n) == Spans(Split(t), n)
    decreases |t|
  {
    FindIn(s, u, t, n);
    if FindFrom(t, 0).Some? {
      var before, body, after := TakeFirst(t);
      var a := n + |before|;
      var e := a + |body| + 4;
      RegroupFour(u, before, Braced(body), after);
      BracedCharacters(body);
      SplitFollowsScan(s, u + (before + Braced(body)), after, e);
      ScanSome(s, n, (a, e));
      SpansHole(before, body, Split(after), n, a, e);
    }
  }

  lemma RegroupFour(u: string, x: string, y: string, z: string)
    ensures (u + (x + y)) + z == u + (x + (y + z))
  {
    Associative(u, x + y, z);
    Associative(x, y, z);
  }

  lemma SpansAreScan(s: string)
    ensures Spans(Split(s), 0) == Scan(s, 0)
  {
    SplitFollowsScan(s, "", s, 0);
  }

  // ---- canonical templates

  predicate NoMatch(t: string) {
    forall x: nat | x < |t| :: !StartsMatch(t, x)
  }

  /** Braces near the end of `t` that a following `{{...}}` would complete to a match. */
  predicate OpenAt(t: string, x: nat) {
    && x < |t| && t[x] == '{'
    && (x + 1 == |t| || (t[x + 1] == '{' && FirstClose(t, x + 2) == |t|))
  }

  predicate OpenEnded(t: string) {
    exists x: nat :: x < |t| && OpenAt(t, x)
  }

  /** Text contains no match and does not run into the expression after it;
      bodies are non-empty and free of `}`. */
  predicate Canonical(t: Template) {
    match t
    case Plain(text) => NoMatch(text)
    case Hole(before, body, rest) =>
      NoMatch(before) && !OpenEnded(before) && body != "" && '}' !in body && Canonical(rest)
  }

  lemma MatchExtends(a: string, b: string, x: nat)
    requires StartsMatch(a, x)
    ensures MatchEnd(a + b, x) == MatchEnd(a, x)
  {
    var e := MatchEnd(a, x).value;
    MatchEndExactly(a, x, e);
    assert forall i: nat | i < |a| :: (a + b)[i] == a[i];
    MatchEndExactly(a + b, x, e);
  }

  lemma PrintedMatches(before: string, body: string, after: string)
    requires body != "" && '}' !in body
    ensures MatchEnd(before + (Braced(body) + after), |before|) == Some(|before| + |body| + 4)
  {
    var u := Braced(body) + after;
    BracedCharacters(body);
    assert forall i | 0 <= i < |body| :: u[2..|body| + 2][i] == body[i] && body[i] in body;
    assert u[2..|body| + 2] == body;
    assert Matches(u, 0, |body| + 4);
    MatchEndExactly(u, 0, |body| + 4);
    MatchEndShift(before, u, 0);
  }

  /** Braces left open before an expression would match with it. */
  lemma OpenCompletes(before: string, body: string, after: string, x: nat)
    requires body != "" && '}' !in body && OpenAt(before, x)
    ensures StartsMatch(before + (Braced(body) + after), x)
  {
    var s := before + (Braced(body) + after);
    PrintedMatches(before, body, after);
    var e := |before| + |body| + 4;
    MatchEndExactly(s, |before|, e);
    assert forall i: nat | i < |before| :: s[i] == before[i];
    assert Matches(s, x, e);
    MatchEndExactly(s, x, e);
  }

  lemma {:induction false} SplitIsCanonical(s: string)
    ensures Canonical(Split(s))
    decreases |s|
  {
    Found(s, 0);
    if FindFrom(s, 0).Some? {
      var before, body, after := TakeFirst(s);
      forall x: nat | x < |before| ensures !StartsMatch(before, x) && !OpenAt(before, x) {
        assert !StartsMatch(s, x);
        if StartsMatch(before, x) { MatchExtends(before, Braced(body) + after, x); }
        if OpenAt(before, x) { OpenCompletes(before, body, after, x); }
      }
      SplitIsCanonical(after);
    }
  }

  /** A match that starts in `t` and is not left open there lies within `t`. */
  lemma MatchCarries(t: string, u: string, x: nat)
    requires x < |t| && !OpenAt(t, x) && |u| >= 1 && u[0] == '{' && StartsMatch(t + u, x)
    ensures StartsMatch(t, x)
  {
    var s := t + u;
    var e := MatchEnd(s, x).value;
    MatchEndExactly(s, x, e);
    assert s[x] == t[x] && s[x + 1] == '{';
    assert x + 1 < |t| && t[x + 1] == '{';
    var q := FirstClose(t, x + 2);
    assert q < |t| && s[q] == '}';
    assert q == e - 2;
    assert s[|t|] == '{' && s[e - 1] == '}';
    assert Matches(t, x, e);
    MatchEndExactly(t, x, e);
  }

  /** After closed text the next expression is found where it was printed. */
  lemma FindPrinted(before: string, body: string, after: string)
    requires NoMatch(before) && !OpenEnded(before) && body != "" && '}' !in body
    ensures FindFrom(before + (Braced(body) + after), 0) == Some(Span(before, body))
  {
    var u := Braced(body) + after;
    BracedCharacters(body);
    PrintedMatches(before, body, after);
    forall x: nat | x < |before| ensures !StartsMatch(before + u, x) {
      if StartsMatch(before + u, x) { MatchCarries(before, u, x); }
    }
    FindExactly(before + u, 0, Some(Span(before, body)));
  }

  lemma {:induction false} SplitPrintCanonical(t: Template)
    requires Canonical(t)
    ensures Split(Print(t)) == t
  {
    match t
    case Plain(text) => FindExactly(text, 0, None);
    case Hole(before, body, rest) =>
      SplitPrintCanonical(rest);
      FindPrinted(before, body, Print(rest));
      SplitPieces(before, body, Print(rest));
  }

  /** The round trip, exactly: printing and splitting again restores a template
      in parts if and only if it is canonical. */
  lemma SplitPrintExactly(t: Template)
    ensures Split(Print(t)) == t <==> Canonical(t)
  {
    SplitIsCanonical(Print(t));
    if Canonical(t) {
      SplitPrintCanonical(t);
    }
  }
}
