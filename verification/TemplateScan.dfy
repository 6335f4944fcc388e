/** The template scanner: which parts of a template the pattern
    `\{\{([^}]+)\}\}` picks out, leftmost first and without overlap. */
module TemplateScan {
  import opened Wrappers

  /** The pattern matches exactly `s[p..e]`. */
  predicate Matches(s: string, p: nat, e: nat) {
    && p + 5 <= e <= |s|
    && s[p] == '{' && s[p + 1] == '{' && s[e - 2] == '}' && s[e - 1] == '}'
    && forall k | p + 2 <= k < e - 2 :: s[k] != '}'
  }

  function FirstClose(s: string, i: nat): (q: nat)
    requires i <= |s|
    ensures i <= q <= |s| && (forall k | i <= k < q :: s[k] != '}') && (q < |s| ==> s[q] == '}')
    decreases |s| - i
  {
    if i == |s| || s[i] == '}' then i else FirstClose(s, i + 1)
  }

  /** Where a match starting at `p` ends: its start determines it. */
  function MatchEnd(s: string, p: nat): (r: Option<nat>)
    ensures r.Some? ==> p + 5 <= r.value <= |s|
  {
    if p + 2 <= |s| && s[p] == '{' && s[p + 1] == '{' then
      var q := FirstClose(s, p + 2);
      if p + 2 < q && q + 1 < |s| && s[q + 1] == '}' then Some(q + 2) else None
    else None
  }

  lemma MatchEndExactly(s: string, p: nat, e: nat)
    ensures MatchEnd(s, p) == Some(e) <==> Matches(s, p, e)
  {
  }

  predicate StartsMatch(s: string, x: nat) { MatchEnd(s, x).Some? }

  /** The leftmost match at or after `p`. */
  function FindFrom(s: string, p: nat): (r: Option<(nat, nat)>)
    ensures r.Some? ==> p <= r.value.0 && r.value.0 + 5 <= r.value.1 <= |s|
    decreases |s| - p
  {
    if p >= |s| then None
    else if MatchEnd(s, p).Some? then Some((p, MatchEnd(s, p).value))
    else FindFrom(s, p + 1)
  }

  /** Nothing matches at or after `p`, or the first match there is at `m.0`. */
  ghost predicate FirstMatch(s: string, p: nat, r: Option<(nat, nat)>) {
    match r
    case None => forall x: nat | p <= x :: !StartsMatch(s, x)
    case Some(m) => p <= m.0 && MatchEnd(s, m.0) == Some(m.1) && forall x: nat | p <= x < m.0 :: !StartsMatch(s, x)
  }

  lemma {:induction false} FindExactly(s: string, p: nat, r: Option<(nat, nat)>)
    ensures r == FindFrom(s, p) <==> FirstMatch(s, p, r)
    decreases |s| - p
  {
    if p < |s| && MatchEnd(s, p).None? {
      FindExactly(s, p + 1, r);
      assert FirstMatch(s, p + 1, r) ==> FirstMatch(s, p, r);
      assert !StartsMatch(s, p);
    } else if p < |s| {
      assert StartsMatch(s, p);
    }
  }

  lemma Found(s: string, p: nat)
    ensures FirstMatch(s, p, FindFrom(s, p))
    ensures FindFrom(s, p).Some? ==> Matches(s, FindFrom(s, p).value.0, FindFrom(s, p).value.1)
  {
    FindExactly(s, p, FindFrom(s, p));
    if FindFrom(s, p).Some? {
      MatchEndExactly(s, FindFrom(s, p).value.0, FindFrom(s, p).value.1);
    }
  }

  /** All matches from `p` on, each search resuming where the last match ended. */
  function Scan(s: string, p: nat): seq<(nat, nat)>
    decreases |s| - p
  {
    match FindFrom(s, p)
    case None => []
    case Some(m) => [m] + Scan(s, m.1)
  }

  /** Position `x` lies in one of the intervals. */
  ghost predicate Covered(ms: seq<(nat, nat)>, x: nat) {
    exists i :: 0 <= i < |ms| && ms[i].0 <= x < ms[i].1
  }

  /** The intervals are in order and disjoint, from `p` on. */
  ghost predicate Disjoint(p: nat, ms: seq<(nat, nat)>) {
    && (forall i | 0 <= i < |ms| :: p <= ms[i].0 < ms[i].1)
    && (forall i, j | 0 <= i < j < |ms| :: ms[i].1 <= ms[j].0)
  }

  /** The declarative reading: disjoint matches in order, such that no match
      starts outside those chosen. */
  ghost predicate Leftmost(s: string, p: nat, ms: seq<(nat, nat)>) {
    && Disjoint(p, ms)
    && (forall m | m in ms :: MatchEnd(s, m.0) == Some(m.1))
    && (forall x: nat | p <= x && StartsMatch(s, x) :: Covered(ms, x))
  }

  lemma CoveredCons(m: (nat, nat), rest: seq<(nat, nat)>, x: nat)
    ensures Covered([m] + rest, x) <==> m.0 <= x < m.1 || Covered(rest, x)
  {
    var ms := [m] + rest;
    if m.0 <= x < m.1 {
      assert ms[0] == m;
    } else {
      assert ms[1..] == rest;
      if Covered(rest, x) {
        var i :| 0 <= i < |rest| && rest[i].0 <= x < rest[i].1;
        assert ms[i + 1] == rest[i];
      }
      assert forall i | 0 < i < |ms| :: ms[i] == rest[i - 1];
    }
  }

  lemma DisjointCons(p: nat, m: (nat, nat), rest: seq<(nat, nat)>)
    ensures Disjoint(p, [m] + rest) <==> p <= m.0 < m.1 && Disjoint(m.1, rest)
  {
    var ms := [m] + rest;
    assert ms[0] == m && ms[1..] == rest;
    if Disjoint(p, ms) {
      assert forall i | 0 <= i < |rest| :: rest[i] == ms[i + 1] && m.1 <= rest[i].0;
    }
  }

  lemma {:induction false} ScanIsLeftmost(s: string, p: nat)
    ensures Leftmost(s, p, Scan(s, p))
    decreases |s| - p
  {
    Found(s, p);
    if FindFrom(s, p).Some? {
      var m := FindFrom(s, p).value;
      var rest := Scan(s, m.1);
      ScanIsLeftmost(s, m.1);
      DisjointCons(p, m, rest);
      forall x: nat | p <= x && StartsMatch(s, x) ensures Covered([m] + rest, x) {
        CoveredCons(m, rest, x);
      }
    }
  }

  lemma DisjointCovers(p: nat, ms: seq<(nat, nat)>, x: nat)
    requires Disjoint(p, ms) && Covered(ms, x)
    ensures p <= x && ms != [] && ms[0].0 <= x
  {
  }

  lemma LeftmostHead(s: string, p: nat, ms: seq<(nat, nat)>)
    requires Leftmost(s, p, ms) && FindFrom(s, p).Some?
    ensures ms != [] && ms[0] == FindFrom(s, p).value
  {
    Found(s, p);
    var m := FindFrom(s, p).value;
    assert StartsMatch(s, m.0) && Covered(ms, m.0);
    DisjointCovers(p, ms, m.0);
    assert ms[0] in ms && StartsMatch(s, ms[0].0);
  }

  lemma LeftmostFinds(s: string, p: nat, ms: seq<(nat, nat)>)
    requires Leftmost(s, p, ms) && ms != []
    ensures FindFrom(s, p).Some?
  {
    Found(s, p);
    assert ms[0] in ms && StartsMatch(s, ms[0].0);
  }

  lemma {:induction false} LeftmostIsScan(s: string, p: nat, ms: seq<(nat, nat)>)
    requires Leftmost(s, p, ms)
    ensures ms == Scan(s, p)
    decreases |s| - p
  {
    if FindFrom(s, p).None? {
      if ms != [] {
        LeftmostFinds(s, p, ms);
      }
    } else {
      LeftmostHead(s, p, ms);
      var m, rest := ms[0], ms[1..];
      assert ms == [m] + rest;
      DisjointCons(p, m, rest);
      forall x: nat | m.1 <= x && StartsMatch(s, x) ensures Covered(rest, x) {
        CoveredCons(m, rest, x);
      }
      LeftmostIsScan(s, m.1, rest);
    }
  }

  /** The scan is the one leftmost, non-overlapping set of matches. */
  lemma ScanExactly(s: string, p: nat, ms: seq<(nat, nat)>)
    ensures ms == Scan(s, p) <==> Leftmost(s, p, ms)
  {
    ScanIsLeftmost(s, p);
    if Leftmost(s, p, ms) {
      LeftmostIsScan(s, p, ms);
    }
  }
}
