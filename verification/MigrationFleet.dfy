/** Any number of starters migrating one database, interleaved in any way, each
    free to fail, crash and start over. */
module MigrationFleet {
  import opened Migrations

  /** Where a starter is in runPostgresMigrations. */
  datatype Starter =
    | Down                                  // not running, crashed, or returned
    | Created                               // table exists, applied versions not read yet
    | Looping(applied: set<string>, i: nat) // at migration `i`
    | Succeeded
    | Failed

  datatype Fleet = Fleet(db: Database, starters: seq<Starter>)

  datatype Move =
    | Begin        // create the table
    | ReadApplied
    | Skip
    | Commit       // one whole transaction
    | Error        // any statement fails, or the record conflicts
    | Finish
    | Crash

  predicate CanMove(ms: seq<Migration>, w: Fleet, p: nat, m: Move) {
    p < |w.starters| &&
    var s := w.starters[p];
    match m
    case Begin => s.Down? || s.Succeeded? || s.Failed?
    case ReadApplied => s.Created?
    case Skip => s.Looping? && s.i < |ms| && ms[s.i].version in s.applied
    case Commit => s.Looping? && s.i < |ms| && ms[s.i].version !in s.applied && ApplyMigration(w.db, ms[s.i], false).1
    case Error => s.Created? || s.Looping?
    case Finish => s.Looping? && s.i == |ms|
    case Crash => true
  }

  function Moved(ms: seq<Migration>, w: Fleet, p: nat, m: Move): Fleet
    requires CanMove(ms, w, p, m)
  {
    var s := w.starters[p];
    match m
    case Begin => w.(starters := w.starters[p := Created])
    case ReadApplied => w.(starters := w.starters[p := Looping(w.db.recorded, 0)])
    case Skip => w.(starters := w.starters[p := s.(i := s.i + 1)])
    case Commit => Fleet(ApplyMigration(w.db, ms[s.i], false).0, w.starters[p := s.(i := s.i + 1)])
    case Error => w.(starters := w.starters[p := Failed])
    case Finish => w.(starters := w.starters[p := Succeeded])
    case Crash => w.(starters := w.starters[p := Down])
  }

  predicate IsRun(ms: seq<Migration>, w: Fleet, run: seq<(nat, Move)>)
    decreases |run|
  {
    run != [] ==> CanMove(ms, w, run[0].0, run[0].1) && IsRun(ms, Moved(ms, w, run[0].0, run[0].1), run[1..])
  }

  function After(ms: seq<Migration>, w: Fleet, run: seq<(nat, Move)>): Fleet
    requires IsRun(ms, w, run)
    decreases |run|
  {
    if run == [] then w else After(ms, Moved(ms, w, run[0].0, run[0].1), run[1..])
  }

  /** A starter at position `i` has the first `i` versions behind it. */
  ghost predicate Placed(ms: seq<Migration>, db: Database, s: Starter) {
    && (s.Looping? ==> s.i <= |ms| && s.applied <= db.recorded && Versions(ms[..s.i]) <= db.recorded)
    && (s.Succeeded? ==> Versions(ms) <= db.recorded)
  }

  /** The committed contents are, in the order of the sorted list, the first files of
      their versions, and the recorded versions are theirs. */
  ghost predicate InOrder(ms: seq<Migration>, db: Database) {
    && db.committed <= Firsts(ms) && db.recorded == Versions(db.committed)
  }

  ghost predicate Inv(ms: seq<Migration>, w: Fleet) {
    InOrder(ms, w.db) && forall p | 0 <= p < |w.starters| :: Placed(ms, w.db, w.starters[p])
  }

  lemma PrefixVersion(ms: seq<Migration>, i: nat, k: nat)
    requires Distinct(ms) && i < |ms| && k <= |ms|
    ensures ms[i].version in Versions(ms[..k]) <==> i < k
  {
    if i < k {
      assert ms[..k][i] == ms[i];
    } else {
      forall m | m in ms[..k] ensures m.version != ms[i].version {
        var j :| 0 <= j < k && ms[..k][j] == m;
        assert m == ms[j];
      }
    }
  }

  /** A commit can only be of the next migration in line. */
  lemma CommitIsNext(ms: seq<Migration>, db: Database, i: nat)
    requires InOrder(ms, db) && i < |ms| && Versions(ms[..i]) <= db.recorded && ms[i].version !in db.recorded
    ensures db.committed == Firsts(ms[..i]) && Firsts(ms[..i + 1]) == db.committed + [ms[i]]
  {
    FirstsExactly(ms);
    FirstsExactly(ms[..i]);
    FirstsGrow(ms, i + 1);
    FirstsSnoc(ms, i);
    PrefixesMeet(Firsts(ms), Firsts(ms[..i]), db.committed, ms[i]);
  }

  /** Two prefixes of a list of distinct versions, compared by where the next version is missing. */
  lemma PrefixesMeet(all: seq<Migration>, before: seq<Migration>, done: seq<Migration>, m: Migration)
    requires Distinct(all) && before + [m] <= all && done <= all
    requires Versions(before) <= Versions(done) && m.version !in Versions(done)
    ensures before == done
  {
    var j, k := |before|, |done|;
    assert before == all[..j] && done == all[..k] && all[j] == m;
    PrefixVersion(all, j, k);
    if k < j {
      PrefixVersion(all, k, j);
      PrefixVersion(all, k, k);
    }
  }

  lemma CommitKeeps(ms: seq<Migration>, db: Database, i: nat)
    requires InOrder(ms, db) && i < |ms| && Versions(ms[..i]) <= db.recorded && ms[i].version !in db.recorded
    ensures InOrder(ms, ApplyMigration(db, ms[i], false).0)
  {
    CommitIsNext(ms, db, i);
    FirstsGrow(ms, i + 1);
    VersionsSnoc(db.committed, ms[i]);
  }

  lemma MoveKeeps(ms: seq<Migration>, w: Fleet, p: nat, m: Move)
    requires Inv(ms, w) && CanMove(ms, w, p, m)
    ensures Inv(ms, Moved(ms, w, p, m))
    ensures w.db.recorded <= Moved(ms, w, p, m).db.recorded && w.db.committed <= Moved(ms, w, p, m).db.committed
  {
    var s := w.starters[p];
    assert Placed(ms, w.db, s);
    if m.Commit? {
      CommitKeeps(ms, w.db, s.i);
    }
    if m.Commit? || m.Skip? {
      VersionsSnoc(ms[..s.i], ms[s.i]);
      assert ms[..s.i + 1] == ms[..s.i] + [ms[s.i]];
    } else if m.Finish? {
      assert ms[..|ms|] == ms;
    }
  }

  lemma {:induction false} RunKeeps(ms: seq<Migration>, w: Fleet, run: seq<(nat, Move)>)
    requires Inv(ms, w) && IsRun(ms, w, run)
    ensures Inv(ms, After(ms, w, run)) && w.db.committed <= After(ms, w, run).db.committed
    decreases |run|
  {
    if run != [] {
      MoveKeeps(ms, w, run[0].0, run[0].1);
      RunKeeps(ms, Moved(ms, w, run[0].0, run[0].1), run[1..]);
    }
  }

  ghost predicate Untouched(w: Fleet) {
    w.db == Database({}, []) && forall s | s in w.starters :: s.Down?
  }

  lemma AllRecorded(ms: seq<Migration>, db: Database)
    requires InOrder(ms, db) && Versions(ms) <= db.recorded
    ensures db.committed == Firsts(ms)
  {
    var all, k := Firsts(ms), |db.committed|;
    FirstsExactly(ms);
    if k < |all| {
      assert db.committed == all[..k] && all[k] in all;
      PrefixVersion(all, k, k);
    }
  }

  /** At most once and in order: in every interleaving of starters, failures and
      crashes each version is committed at most once, the recorded versions are those
      committed, the commits are a prefix of the first files of each version in the
      sorted list, and a starter that has succeeded leaves none of these pending.
      With distinct versions the first files are the whole list. */
  lemma AtMostOnceInOrder(ms: seq<Migration>, w: Fleet, run: seq<(nat, Move)>)
    requires Untouched(w) && IsRun(ms, w, run)
    ensures var v := After(ms, w, run);
            && v.db.committed <= Firsts(ms) && v.db.recorded == Versions(v.db.committed)
            && Distinct(v.db.committed)
            && (Succeeded in v.starters ==> v.db.committed == Firsts(ms))
    ensures Firsts(ms) == ms <==> Distinct(ms)
  {
    assert Versions([]) == {} && w.db.committed <= Firsts(ms);
    forall p | 0 <= p < |w.starters| ensures Placed(ms, w.db, w.starters[p]) {
      assert w.starters[p] in w.starters;
    }
    RunKeeps(ms, w, run);
    FirstsExactly(ms);
    var v := After(ms, w, run);
    assert v.db.committed == Firsts(ms)[..|v.db.committed|];
    if Succeeded in v.starters {
      var p :| 0 <= p < |v.starters| && v.starters[p] == Succeeded;
      assert Placed(ms, v.db, v.starters[p]);
      AllRecorded(ms, v.db);
    }
  }

  lemma {:induction false} OnlyFirst(ms: seq<Migration>, j: nat, k: nat)
    requires j < k < |ms| && ms[j].version == ms[k].version && ms[j] != ms[k] && ms[j].version !in Versions(ms[..j])
    ensures ms[k] !in Firsts(ms)
  {
    FirstsExactly(ms);
    FirstsSnoc(ms, j);
    FirstsGrow(ms, j + 1);
    var all, p := Firsts(ms), |Firsts(ms[..j])|;
    assert all[p] == ms[j];
  }

  /** Of files that share a version only the first is ever committed, by any number of
      starters and reruns, though they may succeed. */
  lemma SharedVersionIsLost(ms: seq<Migration>, w: Fleet, run: seq<(nat, Move)>, j: nat, k: nat)
    requires Untouched(w) && IsRun(ms, w, run)
    requires j < k < |ms| && ms[j].version == ms[k].version && ms[j] != ms[k] && ms[j].version !in Versions(ms[..j])
    ensures ms[k] !in After(ms, w, run).db.committed
    ensures Succeeded in After(ms, w, run).starters ==> ms[j] in After(ms, w, run).db.committed
  {
    AtMostOnceInOrder(ms, w, run);
    OnlyFirst(ms, j, k);
    FirstsSnoc(ms, j);
    FirstsGrow(ms, j + 1);
    assert Firsts(ms)[|Firsts(ms[..j])|] == ms[j];
  }

  /** After a complete run no starter, however it proceeds, changes the database. */
  lemma {:induction false} CompleteStaysComplete(ms: seq<Migration>, w: Fleet, run: seq<(nat, Move)>)
    requires Inv(ms, w) && w.db.committed == Firsts(ms) && IsRun(ms, w, run)
    ensures After(ms, w, run).db == w.db
    decreases |run|
  {
    if run != [] {
      var v := Moved(ms, w, run[0].0, run[0].1);
      MoveKeeps(ms, w, run[0].0, run[0].1);
      assert v.db.committed == Firsts(ms);
      CompleteStaysComplete(ms, v, run[1..]);
    }
  }

  // ---- one starter alone is the sequential run

  /** Some run leads from `w` to `v`. */
  ghost predicate Leads(ms: seq<Migration>, w: Fleet, v: Fleet) {
    exists run :: IsRun(ms, w, run) && After(ms, w, run) == v
  }

  lemma LeadsFirst(ms: seq<Migration>, w: Fleet, p: nat, m: Move, v: Fleet)
    requires CanMove(ms, w, p, m) && Leads(ms, Moved(ms, w, p, m), v)
    ensures Leads(ms, w, v)
  {
    var run :| IsRun(ms, Moved(ms, w, p, m), run) && After(ms, Moved(ms, w, p, m), run) == v;
    var longer := [(p, m)] + run;
    assert longer[0] == (p, m) && longer[1..] == run;
    assert IsRun(ms, w, longer) && After(ms, w, longer) == v;
  }

  lemma LeadsNowhere(ms: seq<Migration>, w: Fleet)
    ensures Leads(ms, w, w)
  {
    assert IsRun(ms, w, []) && After(ms, w, []) == w;
  }

  /** The loop of the sequential run is a run of the fleet with one starter. */
  lemma {:induction false} LoopIsRun(ms: seq<Migration>, i: nat, applied: set<string>, db: Database, fault: nat -> bool)
    requires i <= |ms|
    ensures var (after, ok) := RunFrom(ms, i, applied, db, fault);
            Leads(ms, Fleet(db, [Looping(applied, i)]), Fleet(after, [if ok then Succeeded else Failed]))
    decreases |ms| - i
  {
    var w := Fleet(db, [Looping(applied, i)]);
    var (after, ok) := RunFrom(ms, i, applied, db, fault);
    var v := Fleet(after, [if ok then Succeeded else Failed]);
    if i == |ms| {
      LeadsNowhere(ms, v);
      assert Moved(ms, w, 0, Finish) == v;
      LeadsFirst(ms, w, 0, Finish, v);
    } else if ms[i].version in applied {
      LoopIsRun(ms, i + 1, applied, db, fault);
      assert Moved(ms, w, 0, Skip) == Fleet(db, [Looping(applied, i + 1)]);
      LeadsFirst(ms, w, 0, Skip, v);
    } else if ApplyMigration(db, ms[i], fault(i)).1 {
      var next := ApplyMigration(db, ms[i], false).0;
      LoopIsRun(ms, i + 1, applied, next, fault);
      assert Moved(ms, w, 0, Commit) == Fleet(next, [Looping(applied, i + 1)]);
      LeadsFirst(ms, w, 0, Commit, v);
    } else {
      LeadsNowhere(ms, v);
      assert Moved(ms, w, 0, Error) == v;
      LeadsFirst(ms, w, 0, Error, v);
    }
  }

  // ---- reruns

  /** What a run with working contents does to a database in order: it completes it
      and succeeds, or it commits something and fails. */
  lemma RunProgresses(ms: seq<Migration>, db: Database, fault: nat -> bool)
    requires InOrder(ms, db) && forall k :: !fault(k)
    ensures var (after, ok) := RunFrom(ms, 0, db.recorded, db, fault);
            && InOrder(ms, after)
            && (ok ==> after.committed == Firsts(ms))
            && (!ok ==> |after.committed| > |db.committed|)
  {
    var (after, ok) := RunFrom(ms, 0, db.recorded, db, fault);
    LoopIsRun(ms, 0, db.recorded, db, fault);
    var w, v := Fleet(db, [Looping(db.recorded, 0)]), Fleet(after, [if ok then Succeeded else Failed]);
    var run :| IsRun(ms, w, run) && After(ms, w, run) == v;
    assert Versions(ms[..0]) == {};
    RunKeeps(ms, w, run);
    if ok {
      assert Placed(ms, v.db, v.starters[0]);
      AllRecorded(ms, after);
    } else {
      FailureCommits(ms, 0, db.recorded, db, fault);
    }
  }

  lemma {:induction false} CommitsGrow(ms: seq<Migration>, i: nat, applied: set<string>, db: Database, fault: nat -> bool)
    requires i <= |ms|
    ensures db.committed <= RunFrom(ms, i, applied, db, fault).0.committed
    decreases |ms| - i
  {
    if i < |ms| && ms[i].version in applied {
      CommitsGrow(ms, i + 1, applied, db, fault);
    } else if i < |ms| && ApplyMigration(db, ms[i], fault(i)).1 {
      CommitsGrow(ms, i + 1, applied, ApplyMigration(db, ms[i], fault(i)).0, fault);
    }
  }

  lemma {:induction false} FailureCommits(ms: seq<Migration>, i: nat, applied: set<string>, db: Database, fault: nat -> bool)
    requires i <= |ms| && applied == db.recorded && (forall k :: !fault(k)) && !RunFrom(ms, i, applied, db, fault).1
    ensures |RunFrom(ms, i, applied, db, fault).0.committed| > |db.committed|
    decreases |ms| - i
  {
    if ms[i].version in applied {
      FailureCommits(ms, i + 1, applied, db, fault);
    } else {
      CommitsGrow(ms, i + 1, applied, ApplyMigration(db, ms[i], false).0, fault);
    }
  }

  /** The database and the outcome of the last of `n` runs one after the other. */
  function Reruns(ms: seq<Migration>, db: Database, fault: nat -> bool, n: nat): (Database, bool)
    requires n > 0
    decreases n
  {
    var first := RunFrom(ms, 0, db.recorded, db, fault);
    if n == 1 then first else Reruns(ms, first.0, fault, n - 1)
  }

  /** With working contents the runs come to succeed, with the first file of each
      version committed and any other never. */
  lemma {:induction false} RerunsSucceed(ms: seq<Migration>, db: Database, fault: nat -> bool, n: nat)
    requires InOrder(ms, db) && (forall k :: !fault(k)) && n > |Firsts(ms)| - |db.committed|
    ensures n > 0 && Reruns(ms, db, fault, n).1 && Reruns(ms, db, fault, n).0.committed == Firsts(ms)
    decreases n
  {
    RunProgresses(ms, db, fault);
    if n > 1 {
      RerunsSucceed(ms, RunFrom(ms, 0, db.recorded, db, fault).0, fault, n - 1);
    }
  }
}
