/** The migration runner: load and sort, skip what is recorded, apply the rest one
    transaction each. */
module Migrations {
  import opened Wrappers

  datatype Migration = Migration(version: string, content: string)

  datatype Entry = Entry(name: string, isDir: bool, content: string)

  // ---- loading

  /** Byte order on strings. */
  predicate Less(a: string, b: string) {
    b != "" && (a == "" || a[0] < b[0] || (a[0] == b[0] && Less(a[1..], b[1..])))
  }

  lemma {:induction false} LessTrichotomy(a: string, b: string)
    ensures Less(a, b) || a == b || Less(b, a)
    ensures !(Less(a, b) && Less(b, a)) && (a == b ==> !Less(a, b))
  {
    if a != "" && b != "" {
      LessTrichotomy(a[1..], b[1..]);
      assert a == [a[0]] + a[1..] && b == [b[0]] + b[1..];
    }
  }

  lemma {:induction false} LessTransitive(a: string, b: string, c: string)
    requires Less(a, b) && Less(b, c)
    ensures Less(a, c)
  {
    if a != "" && a[0] == b[0] == c[0] {
      LessTransitive(a[1..], b[1..], c[1..]);
    }
  }

  /** Both agree up to position `k`, where `a` has the smaller byte. */
  predicate SmallerAt(a: string, b: string, k: nat) {
    k < |a| && k < |b| && a[..k] == b[..k] && a[k] < b[k]
  }

  lemma SmallerFurther(a: string, b: string, k: nat)
    requires a != "" && b != "" && a[0] == b[0]
    ensures SmallerAt(a, b, k + 1) <==> SmallerAt(a[1..], b[1..], k)
  {
    if k + 1 <= |a| && k + 1 <= |b| {
      assert a[..k + 1] == [a[0]] + a[1..][..k] && b[..k + 1] == [b[0]] + b[1..][..k];
      assert a[..k + 1][1..] == a[1..][..k] && b[..k + 1][1..] == b[1..][..k];
    }
  }

  lemma SmallerAtOnce(a: string, b: string, k: nat)
    requires a != "" && b != "" && a[0] != b[0]
    ensures SmallerAt(a, b, k) <==> k == 0 && a[0] < b[0]
  {
    if k > 0 && k <= |a| && k <= |b| {
      assert a[..k][0] == a[0] && b[..k][0] == b[0];
    }
  }

  /** The dictionary order, without recursion: `a` is a proper prefix of `b`, or has the
      smaller byte where they first differ. */
  lemma {:induction false} LessExactly(a: string, b: string)
    ensures Less(a, b) <==> a < b || exists k: nat :: SmallerAt(a, b, k)
  {
    if a != "" && b != "" {
      var s, t := a[1..], b[1..];
      if a[0] == b[0] {
        LessExactly(s, t);
        assert a < b <==> s < t by {
          assert a == [a[0]] + s && b == [b[0]] + t;
        }
        if k: nat :| SmallerAt(s, t, k) {
          SmallerFurther(a, b, k);
        }
        if k: nat :| SmallerAt(a, b, k) {
          SmallerFurther(a, b, k - 1);
        }
      } else {
        forall k: nat ensures SmallerAt(a, b, k) <==> k == 0 && a[0] < b[0] {
          SmallerAtOnce(a, b, k);
        }
        assert SmallerAt(a, b, 0) <==> a[0] < b[0];
      }
    }
  }

  predicate IsSQL(e: Entry) {
    !e.isDir && |e.name| >= 4 && e.name[|e.name| - 4..] == ".sql"
  }

  /** The part of a file name before its first underscore. */
  function VersionOf(name: string): string {
    if name == "" || name[0] == '_' then "" else [name[0]] + VersionOf(name[1..])
  }

  /** It has no underscore, and one or the end of the name follows. */
  lemma {:induction false} VersionOfExactly(name: string, version: string)
    ensures version == VersionOf(name) <==>
              '_' !in version && version <= name && (|version| < |name| ==> name[|version|] == '_')
  {
    if name != "" && name[0] != '_' {
      if version != "" {
        VersionOfExactly(name[1..], version[1..]);
        assert version == [version[0]] + version[1..] && name == [name[0]] + name[1..];
        assert '_' in version <==> version[0] == '_' || '_' in version[1..];
        assert version <= name <==> version[0] == name[0] && version[1..] <= name[1..];
      }
    } else if version != "" && version <= name {
      assert version[0] == name[0];
    }
  }

  lemma SQLExactly(e: Entry)
    ensures IsSQL(e) <==> !e.isDir && exists base: string :: e.name == base + ".sql"
  {
    if IsSQL(e) {
      assert e.name == e.name[..|e.name| - 4] + ".sql";
    }
  }

  /** Which migrations the files give. */
  lemma {:induction false} ParsedExactly(entries: seq<Entry>, m: Migration)
    ensures m in Parsed(entries) <==>
              exists e :: e in entries && IsSQL(e) && m.version == VersionOf(e.name) && m.content == e.content
    ensures |Parsed(entries)| <= |entries|
  {
    if entries != [] {
      ParsedExactly(entries[1..], m);
      assert entries == [entries[0]] + entries[1..];
    }
  }

  function ParsedOne(e: Entry): seq<Migration> {
    if IsSQL(e) then [Migration(VersionOf(e.name), e.content)] else []
  }

  function Parsed(entries: seq<Entry>): seq<Migration> {
    if entries == [] then [] else ParsedOne(entries[0]) + Parsed(entries[1..])
  }

  predicate Sorted(ms: seq<Migration>) {
    forall i, j | 0 <= i < j < |ms| :: !Less(ms[j].version, ms[i].version)
  }

  predicate Distinct(ms: seq<Migration>) {
    forall i, j | 0 <= i < j < |ms| :: ms[i].version != ms[j].version
  }

  lemma {:induction false} ParsedSnoc(entries: seq<Entry>, e: Entry)
    ensures Parsed(entries + [e]) == Parsed(entries) + ParsedOne(e)
  {
    if entries == [] {
      assert [e][1..] == [] && [] + [e] == [e];
    } else {
      assert (entries + [e])[1..] == entries[1..] + [e];
      ParsedSnoc(entries[1..], e);
      Regroup(ParsedOne(entries[0]), Parsed(entries[1..]), ParsedOne(e));
    }
  }

  lemma Regroup(x: seq<Migration>, y: seq<Migration>, z: seq<Migration>)
    ensures x + (y + z) == (x + y) + z
  {
  }

  /** Insert before the first migration with a greater version. */
  function Insert(ms: seq<Migration>, m: Migration): (r: seq<Migration>)
    ensures multiset(r) == multiset(ms) + multiset{m}
  {
    if ms == [] then [m]
    else if Less(m.version, ms[0].version) then [m] + ms
    else
      assert ms == [ms[0]] + ms[1..];
      [ms[0]] + Insert(ms[1..], m)
  }

  lemma {:induction false} InsertSorted(ms: seq<Migration>, m: Migration)
    requires Sorted(ms)
    ensures Sorted(Insert(ms, m))
  {
    if ms != [] && !Less(m.version, ms[0].version) {
      InsertSorted(ms[1..], m);
      var rest := Insert(ms[1..], m);
      forall x | x in rest ensures !Less(x.version, ms[0].version) {
        assert x in multiset(rest);
        assert x == m || x in ms[1..];
      }
    } else if ms != [] {
      forall k | 0 <= k < |ms| ensures !Less(ms[k].version, m.version) {
        if Less(ms[k].version, m.version) {
          LessTransitive(ms[k].version, m.version, ms[0].version);
          LessTrichotomy(ms[0].version, ms[0].version);
        }
      }
    }
  }

  method LoadMigrations(entries: seq<Entry>) returns (ms: seq<Migration>)
    ensures Sorted(ms) && multiset(ms) == multiset(Parsed(entries))
  {
    ms := [];
    for i := 0 to |entries|
      invariant Sorted(ms) && multiset(ms) == multiset(Parsed(entries[..i]))
    {
      assert entries[..i + 1] == entries[..i] + [entries[i]];
      ParsedSnoc(entries[..i], entries[i]);
      if IsSQL(entries[i]) {
        var m := Migration(VersionOf(entries[i].name), entries[i].content);
        InsertSorted(ms, m);
        ms := Insert(ms, m);
      }
    }
    assert entries[..|entries|] == entries;
  }

  // ---- the database and one run

  /** The recorded versions of the module, and a history: what was committed, in order. */
  datatype Database = Database(recorded: set<string>, committed: seq<Migration>)

  /** One transaction: it commits the content and the record together, unless the
      content fails or the version is already recorded (the table's primary key). */
  function ApplyMigration(db: Database, m: Migration, fails: bool): (Database, bool) {
    if fails || m.version in db.recorded then (db, false)
    else (Database(db.recorded + {m.version}, db.committed + [m]), true)
  }

  /** The loop from position `i`; `fault` says which contents fail. */
  function RunFrom(ms: seq<Migration>, i: nat, applied: set<string>, db: Database, fault: nat -> bool): (Database, bool)
    requires i <= |ms|
    decreases |ms| - i
  {
    if i == |ms| then (db, true)
    else if ms[i].version in applied then RunFrom(ms, i + 1, applied, db, fault)
    else
      var (next, ok) := ApplyMigration(db, ms[i], fault(i));
      if ok then RunFrom(ms, i + 1, applied, next, fault) else (next, false)
  }

  class Connection {
    var db: Database

    constructor (db: Database)
      ensures this.db == db
    {
      this.db := db;
    }

    method Apply(m: Migration, fails: bool) returns (ok: bool)
      modifies this
      ensures (db, ok) == ApplyMigration(old(db), m, fails)
    {
      if fails || m.version in db.recorded {
        return false;
      }
      db := Database(db.recorded + {m.version}, db.committed + [m]);
      return true;
    }

    /** `creates` and `readable` say whether the table can be created and read;
        `loaded` is absent when the files cannot be read. */
    method RunMigrations(creates: bool, loaded: Option<seq<Migration>>, readable: bool, fault: nat -> bool) returns (ok: bool)
      modifies this
      ensures !creates || loaded.None? || !readable ==> !ok && db == old(db)
      ensures creates && loaded.Some? && readable ==>
                (db, ok) == RunFrom(loaded.value, 0, old(db).recorded, old(db), fault)
    {
      if !creates || loaded.None? || !readable {
        return false;
      }
      var ms, applied := loaded.value, db.recorded;
      var i := 0;
      while i < |ms|
        invariant 0 <= i <= |ms|
        invariant RunFrom(ms, i, applied, db, fault) == RunFrom(ms, 0, applied, old(db), fault)
      {
        if ms[i].version !in applied {
          var done := Apply(ms[i], fault(i));
          if !done {
            return false;
          }
        }
        i := i + 1;
      }
      return true;
    }
  }

  // ---- what one run does

  function Pending(ms: seq<Migration>, applied: set<string>): seq<Migration> {
    if ms == [] then [] else
      var rest := Pending(ms[1..], applied);
      if ms[0].version in applied then rest else [ms[0]] + rest
  }

  function Versions(ms: seq<Migration>): set<string> { set m | m in ms :: m.version }

  lemma {:induction false} PendingMembers(ms: seq<Migration>, applied: set<string>)
    ensures forall m :: m in Pending(ms, applied) <==> m in ms && m.version !in applied
  {
    if ms != [] {
      PendingMembers(ms[1..], applied);
      assert ms == [ms[0]] + ms[1..];
    }
  }

  lemma DistinctCons(m: Migration, ms: seq<Migration>)
    ensures Distinct([m] + ms) <==> Distinct(ms) && m.version !in Versions(ms)
  {
    var all := [m] + ms;
    if Distinct(all) {
      forall i, j | 0 <= i < j < |ms| ensures ms[i].version != ms[j].version {
        assert all[i + 1] == ms[i] && all[j + 1] == ms[j];
      }
      forall i | 0 <= i < |ms| ensures ms[i].version != m.version {
        assert all[i + 1] == ms[i] && all[0] == m;
      }
    }
    if Distinct(ms) && m.version !in Versions(ms) {
      forall i, j | 0 <= i < j < |all| ensures all[i].version != all[j].version {
        assert all[j] == ms[j - 1] && all[j] in ms;
        if i > 0 {
          assert all[i] == ms[i - 1];
        }
      }
    }
  }

  /** A run in which no content fails succeeds exactly when the pending versions
      are distinct and unrecorded; then it commits just the pending ones, in order. */
  lemma {:induction false} RunExactly(ms: seq<Migration>, i: nat, applied: set<string>, db: Database, fault: nat -> bool)
    requires i <= |ms| && forall k :: !fault(k)
    ensures var pending := Pending(ms[i..], applied);
            var (after, ok) := RunFrom(ms, i, applied, db, fault);
            && (ok <==> Distinct(pending) && Versions(pending) !! db.recorded)
            && (ok ==> after == Database(db.recorded + Versions(pending), db.committed + pending))
    decreases |ms| - i
  {
    var pending := Pending(ms[i..], applied);
    if i == |ms| {
      assert pending == [] && db.committed + [] == db.committed;
    } else {
      var m := ms[i];
      assert ms[i..][0] == m && ms[i..][1..] == ms[i + 1..];
      var rest := Pending(ms[i + 1..], applied);
      if m.version in applied {
        RunExactly(ms, i + 1, applied, db, fault);
        assert pending == rest;
      } else {
        var next := ApplyMigration(db, m, false).0;
        RunExactly(ms, i + 1, applied, next, fault);
        DistinctCons(m, rest);
        assert pending == [m] + rest;
        assert Versions(pending) == {m.version} + Versions(rest);
        assert (db.committed + [m]) + rest == db.committed + pending;
      }
    }
  }

  /** On a fresh database, with working contents: success if and only if all versions are distinct. */
  lemma FreshRunExactly(ms: seq<Migration>, fault: nat -> bool)
    requires forall k :: !fault(k)
    ensures RunFrom(ms, 0, {}, Database({}, []), fault).1 <==> Distinct(ms)
    ensures Distinct(ms) ==> RunFrom(ms, 0, {}, Database({}, []), fault).0 == Database(Versions(ms), ms)
  {
    RunExactly(ms, 0, {}, Database({}, []), fault);
    assert ms[0..] == ms;
    NothingApplied(ms);
  }

  lemma {:induction false} NothingApplied(ms: seq<Migration>)
    ensures Pending(ms, {}) == ms
  {
    if ms != [] {
      NothingApplied(ms[1..]);
      assert ms == [ms[0]] + ms[1..];
    }
  }

  /** A content that fails and is pending ends the run with an error before it, having
      committed only what was pending earlier. */
  lemma {:induction false} FaultStops(ms: seq<Migration>, i: nat, applied: set<string>, db: Database, fault: nat -> bool, k: nat)
    requires i <= k < |ms| && ms[k].version !in applied && fault(k)
    ensures var (after, ok) := RunFrom(ms, i, applied, db, fault);
            !ok && after.committed <= db.committed + Pending(ms[i..k], applied)
    decreases |ms| - i
  {
    var m := ms[i];
    if i < k {
      assert ms[i..k][0] == m && ms[i..k][1..] == ms[i + 1..k];
      var rest := Pending(ms[i + 1..k], applied);
      if m.version in applied {
        FaultStops(ms, i + 1, applied, db, fault, k);
      } else {
        assert db.committed + ([m] + rest) == (db.committed + [m]) + rest;
        if ApplyMigration(db, m, fault(i)).1 {
          FaultStops(ms, i + 1, applied, ApplyMigration(db, m, fault(i)).0, fault, k);
        }
      }
    } else {
      assert db.committed + [] == db.committed;
    }
  }

  /** If it is the first such, and the versions pending before it are distinct and
      unrecorded, just those are committed. */
  lemma {:induction false} CommittedUpToFault(ms: seq<Migration>, i: nat, applied: set<string>, db: Database,
                                              fault: nat -> bool, k: nat)
    requires i <= k < |ms| && ms[k].version !in applied && fault(k)
    requires forall l: nat | i <= l < k && ms[l].version !in applied :: !fault(l)
    requires var before := Pending(ms[i..k], applied); Distinct(before) && Versions(before) !! db.recorded
    ensures var before := Pending(ms[i..k], applied);
            RunFrom(ms, i, applied, db, fault) == (Database(db.recorded + Versions(before), db.committed + before), false)
    decreases |ms| - i
  {
    var before := Pending(ms[i..k], applied);
    if i == k {
      assert before == [] && db.committed + [] == db.committed;
      assert Versions(before) == {} && db.recorded + {} == db.recorded;
    } else {
      var m := ms[i];
      assert ms[i..k][0] == m && ms[i..k][1..] == ms[i + 1..k];
      var rest := Pending(ms[i + 1..k], applied);
      if m.version in applied {
        CommittedUpToFault(ms, i + 1, applied, db, fault, k);
      } else {
        DistinctCons(m, rest);
        assert before == [m] + rest;
        assert Versions(before) == {m.version} + Versions(rest);
        var next := Database(db.recorded + {m.version}, db.committed + [m]);
        assert m.version in Versions(before) && ApplyMigration(db, m, fault(i)) == (next, true);
        CommittedUpToFault(ms, i + 1, applied, next, fault, k);
        assert (db.committed + [m]) + rest == db.committed + before;
        assert next.recorded + Versions(rest) == db.recorded + Versions(before);
      }
    }
  }

  // ---- files that share a version

  /** The first file of each version. */
  function Firsts(ms: seq<Migration>): seq<Migration> {
    if ms == [] then [] else
      var n := |ms| - 1;
      if ms[n].version in Versions(ms[..n]) then Firsts(ms[..n]) else Firsts(ms[..n]) + [ms[n]]
  }

  lemma FirstsSnoc(ms: seq<Migration>, i: nat)
    requires i < |ms|
    ensures Firsts(ms[..i + 1])
         == if ms[i].version in Versions(ms[..i]) then Firsts(ms[..i]) else Firsts(ms[..i]) + [ms[i]]
  {
    assert ms[..i + 1][..i] == ms[..i];
  }

  lemma VersionsSnoc(ms: seq<Migration>, m: Migration)
    ensures Versions(ms + [m]) == Versions(ms) + {m.version}
  {
  }

  lemma DistinctSnoc(ms: seq<Migration>, m: Migration)
    ensures Distinct(ms + [m]) <==> Distinct(ms) && m.version !in Versions(ms)
  {
    var all := ms + [m];
    if Distinct(all) {
      forall i, j | 0 <= i < j < |ms| ensures ms[i].version != ms[j].version {
        assert all[i].version != all[j].version;
      }
      forall x | x in ms ensures x.version != m.version {
        var i :| 0 <= i < |ms| && ms[i] == x;
        assert all[i].version != all[|ms|].version;
      }
    } else if Distinct(ms) {
      var i, j :| 0 <= i < j < |all| && all[i].version == all[j].version;
      assert all[i] in ms;
    }
  }

  /** They have all the versions, each once, and are all the files if none is shared. */
  lemma {:induction false} FirstsExactly(ms: seq<Migration>)
    ensures Versions(Firsts(ms)) == Versions(ms) && Distinct(Firsts(ms))
    ensures Firsts(ms) == ms <==> Distinct(ms)
    ensures |Firsts(ms)| <= |ms|
  {
    if ms != [] {
      var n := |ms| - 1;
      FirstsExactly(ms[..n]);
      assert ms == ms[..n] + [ms[n]];
      VersionsSnoc(ms[..n], ms[n]);
      VersionsSnoc(Firsts(ms[..n]), ms[n]);
      DistinctSnoc(ms[..n], ms[n]);
      DistinctSnoc(Firsts(ms[..n]), ms[n]);
    }
  }

  lemma {:induction false} FirstsGrow(ms: seq<Migration>, i: nat)
    requires i <= |ms|
    ensures Firsts(ms[..i]) <= Firsts(ms)
    decreases |ms| - i
  {
    if i == |ms| {
      assert ms[..i] == ms;
    } else {
      FirstsSnoc(ms, i);
      FirstsGrow(ms, i + 1);
    }
  }
}
