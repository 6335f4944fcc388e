/** PostgreSQL session-level advisory locks, as `postgresAdvisoryLock` uses them.
    A lock is re-entrant and counted: a session that already holds it may take
    it again and must release it as often.  Releasing a lock the session does
    not hold changes nothing. */
module AdvisoryLock {

  type Session = nat

  /** How often each session holds each key; an absent entry counts zero. */
  type LockTable = map<(Session, int), nat>

  function Held(t: LockTable, s: Session, key: int): nat {
    if (s, key) in t then t[(s, key)] else 0
  }

  /** No session other than `s` holds `key`. */
  predicate FreeFor(t: LockTable, s: Session, key: int) {
    forall e | e in t :: e.1 == key && e.0 != s ==> t[e] == 0
  }

  /** pg_try_advisory_lock: never waits, so the answer is the guard itself. */
  function TryLock(t: LockTable, s: Session, key: int): (r: (bool, LockTable))
    ensures forall o: Session, k: int :: Held(r.1, o, k) == Held(t, o, k) + if r.0 && (o, k) == (s, key) then 1 else 0
  {
    if FreeFor(t, s, key) then (true, t[(s, key) := Held(t, s, key) + 1]) else (false, t)
  }

  /** pg_advisory_unlock: releasing a lock that is not held is a no-op. */
  function Unlock(t: LockTable, s: Session, key: int): (r: LockTable)
    ensures forall o: Session, k: int ::
              Held(r, o, k) == Held(t, o, k) - if (o, k) == (s, key) && Held(t, s, key) > 0 then 1 else 0
  {
    if Held(t, s, key) == 0 then t else t[(s, key) := Held(t, s, key) - 1]
  }

  /** At most one session holds any key. */
  ghost predicate Exclusive(t: LockTable) {
    forall o: Session, p: Session, k: int :: Held(t, o, k) > 0 && Held(t, p, k) > 0 ==> o == p
  }

  lemma FreeForMeansUnheld(t: LockTable, s: Session, key: int)
    ensures FreeFor(t, s, key) <==> forall o: Session :: o != s ==> Held(t, o, key) == 0
  {
    if forall o: Session :: o != s ==> Held(t, o, key) == 0 {
      forall e | e in t && e.1 == key && e.0 != s ensures t[e] == 0 {
        assert e == (e.0, key);
        assert Held(t, e.0, key) == 0;
      }
    }
  }

  lemma TryLockKeepsExclusive(t: LockTable, s: Session, key: int)
    requires Exclusive(t)
    ensures Exclusive(TryLock(t, s, key).1)
    ensures TryLock(t, s, key).0 <==> forall o: Session :: o != s ==> Held(t, o, key) == 0
  {
    FreeForMeansUnheld(t, s, key);
  }

  lemma UnlockKeepsExclusive(t: LockTable, s: Session, key: int)
    requires Exclusive(t)
    ensures Exclusive(Unlock(t, s, key))
  {
    var r := Unlock(t, s, key);
    forall o: Session, p: Session, k: int | Held(r, o, k) > 0 && Held(r, p, k) > 0
      ensures o == p
    {
      assert Held(t, o, k) > 0 && Held(t, p, k) > 0;
    }
  }

  /** The lock server.  `Locker` is the view one session has of it. */
  class LockServer {
    var table: LockTable

    constructor ()
      ensures table == map[]
    {
      table := map[];
    }

    method Acquire(s: Session, key: int) returns (acquired: bool)
      modifies this
      ensures (acquired, table) == TryLock(old(table), s, key)
    {
      acquired := FreeFor(table, s, key);
      if acquired {
        table := table[(s, key) := Held(table, s, key) + 1];
      }
    }

    method Release(s: Session, key: int)
      modifies this
      ensures table == Unlock(old(table), s, key)
    {
      if Held(table, s, key) > 0 {
        table := table[(s, key) := Held(table, s, key) - 1];
      }
    }
  }
}
