/** What the git subscriber sends over a whole run, in terms of what the
    repository showed. */
module GitDedup {
  import opened Wrappers
  import opened GitPoll

  // ---- what the repository showed

  /** The head, if it and its commit could be read. */
  function Readable(o: Observation): seq<Head> {
    var h := Seen(o);
    if h.Some? && h.value.commit.Some? then [h.value] else []
  }

  /** The heads that could be read, in order. */
  function Heads(obs: seq<Observation>): seq<Head> {
    if obs == [] then [] else Heads(obs[..|obs| - 1]) + Readable(obs[|obs| - 1])
  }

  /** The tags gone through, in order. */
  function AllListed(obs: seq<Observation>): seq<Tag> {
    if obs == [] then [] else AllListed(obs[..|obs| - 1]) + Listed(obs[|obs| - 1])
  }

  function SHAs(first: SHA, heads: seq<Head>): seq<SHA> {
    [first] + seq(|heads|, i requires 0 <= i < |heads| => heads[i].sha)
  }

  /** One event for each head that differs from the head before it. */
  function Changes(branch: string, first: SHA, heads: seq<Head>): seq<Event>
    requires forall h | h in heads :: h.commit.Some?
  {
    if heads == [] then [] else
      var n := |heads| - 1;
      Changes(branch, first, heads[..n])
      + if heads[n].sha == SHAs(first, heads)[n] then [] else [NewCommit(branch, heads[n].sha, heads[n].commit.value)]
  }

  /** The branch comes back to a head it had left. */
  ghost predicate Revisits(shas: seq<SHA>) {
    exists i, j, k | 0 <= i < j < k < |shas| :: shas[i] == shas[k] && shas[j] != shas[k]
  }

  // ---- what was sent

  function Commits(events: seq<Event>): seq<Event> {
    if events == [] then [] else
      var e := events[|events| - 1];
      Commits(events[..|events| - 1]) + if e.CommitEvent? then [e] else []
  }

  function Tags(events: seq<Event>): seq<Event> {
    if events == [] then [] else
      var e := events[|events| - 1];
      Tags(events[..|events| - 1]) + if e.TagEvent? then [e] else []
  }

  function CommitSHAs(events: seq<Event>): (shas: seq<SHA>)
    requires forall e | e in events :: e.CommitEvent?
    ensures |shas| == |events|
  {
    seq<SHA>(|events|, i requires 0 <= i < |events| => events[i].sha)
  }

  function Count(events: seq<Event>, name: string): nat {
    if events == [] then 0 else
      var e := events[|events| - 1];
      Count(events[..|events| - 1], name) + if e.TagEvent? && e.tag == name then 1 else 0
  }

  lemma {:induction false} CommitsAppend(a: seq<Event>, b: seq<Event>)
    ensures Commits(a + b) == Commits(a) + Commits(b)
    ensures Tags(a + b) == Tags(a) + Tags(b)
  {
    if b == [] {
      assert a + b == a;
    } else {
      var c := b[..|b| - 1];
      assert (a + b)[..|a + b| - 1] == a + c;
      CommitsAppend(a, c);
    }
  }

  lemma {:induction false} CountTags(events: seq<Event>, name: string)
    ensures Count(Tags(events), name) == Count(events, name)
  {
    if events != [] {
      var e := events[|events| - 1];
      var before := events[..|events| - 1];
      CountTags(before, name);
      if e.TagEvent? {
        assert Tags(events)[..|Tags(events)| - 1] == Tags(before);
      } else {
        assert Tags(events) == Tags(before);
      }
    }
  }

  lemma {:induction false} CountGrows(a: seq<Event>, b: seq<Event>, name: string)
    ensures Count(a, name) <= Count(a + b, name)
  {
    if b == [] {
      assert a + b == a;
    } else {
      assert (a + b)[..|a + b| - 1] == a + b[..|b| - 1];
      CountGrows(a, b[..|b| - 1], name);
    }
  }

  lemma {:induction false} TagEventsAreTags(known: set<string>, tags: seq<Tag>)
    ensures Tags(TagEvents(known, tags)) == TagEvents(known, tags) && Commits(TagEvents(known, tags)) == []
  {
    if tags != [] {
      TagEventsAreTags(known, tags[..|tags| - 1]);
      var last := TagEventAt(known, tags, |tags| - 1);
      CommitsAppend(TagEvents(known, tags[..|tags| - 1]), last);
      if last != [] {
        assert last[..0] == [];
      }
    }
  }

  lemma SendsParts(branch: string, watchTags: bool, s: Memory, o: Observation)
    ensures Commits(Sends(branch, watchTags, s, o)) == CommitEvents(branch, s.last, Seen(o))
    ensures Tags(Sends(branch, watchTags, s, o)) == if watchTags then TagEvents(s.known, Listed(o)) else []
  {
    var first := CommitEvents(branch, s.last, Seen(o));
    var tagged := if watchTags then TagEvents(s.known, Listed(o)) else [];
    TagEventsAreTags(s.known, Listed(o));
    CommitsAppend(first, tagged);
    if first != [] {
      assert first[..0] == [];
    }
  }

  // ---- commits

  lemma ChangesSnoc(branch: string, first: SHA, heads: seq<Head>, h: Head)
    requires forall g | g in heads + [h] :: g.commit.Some?
    ensures Changes(branch, first, heads + [h])
         == Changes(branch, first, heads) + CommitEvents(branch, SHAs(first, heads)[|heads|], Some(h))
  {
    var all := heads + [h];
    assert all[..|heads|] == heads;
    assert SHAs(first, all)[|heads|] == SHAs(first, heads)[|heads|];
  }

  /** One more observation, seen by a subscriber that remembers the last head read. */
  lemma ObserveHead(branch: string, first: SHA, heads: seq<Head>, last: SHA, o: Observation)
    requires forall h | h in heads :: h.commit.Some?
    requires last == SHAs(first, heads)[|heads|]
    ensures forall h | h in heads + Readable(o) :: h.commit.Some?
    ensures Changes(branch, first, heads + Readable(o)) == Changes(branch, first, heads) + CommitEvents(branch, last, Seen(o))
    ensures LastAfter(last, Seen(o)) == SHAs(first, heads + Readable(o))[|heads + Readable(o)|]
  {
    if Readable(o) == [] {
      assert heads + [] == heads;
      assert Changes(branch, first, heads) + [] == Changes(branch, first, heads);
    } else {
      ChangesSnoc(branch, first, heads, Readable(o)[0]);
    }
  }

  /** The commits sent are the readable heads with consecutive repeats collapsed,
      and the subscriber remembers the last of them. */
  lemma {:induction false} CommitsExactly(branch: string, watchTags: bool, s: Memory, obs: seq<Observation>)
    ensures forall h | h in Heads(obs) :: h.commit.Some?
    ensures Commits(EventsOver(branch, watchTags, s, obs)) == Changes(branch, s.last, Heads(obs))
    ensures StateAfter(watchTags, s, obs).last == SHAs(s.last, Heads(obs))[|Heads(obs)|]
  {
    if obs != [] {
      var before, o := obs[..|obs| - 1], obs[|obs| - 1];
      CommitsExactly(branch, watchTags, s, before);
      var was := StateAfter(watchTags, s, before);
      SendsParts(branch, watchTags, was, o);
      CommitsAppend(EventsOver(branch, watchTags, s, before), Sends(branch, watchTags, was, o));
      ObserveHead(branch, s.last, Heads(before), was.last, o);
    }
  }

  ghost predicate NoRepeats(shas: seq<SHA>) {
    forall i, j | 0 <= i < j < |shas| :: shas[i] != shas[j]
  }

  lemma NoRepeatsSnoc(shas: seq<SHA>, x: SHA)
    ensures NoRepeats(shas + [x]) <==> NoRepeats(shas) && x !in shas
  {
    var all := shas + [x];
    if NoRepeats(all) {
      forall i, j | 0 <= i < j < |shas| ensures shas[i] != shas[j] { assert all[i] != all[j]; }
      forall i | 0 <= i < |shas| ensures shas[i] != x { assert all[i] != all[|shas|]; }
    }
  }

  lemma RevisitsSnoc(shas: seq<SHA>, x: SHA)
    requires shas != []
    ensures Revisits(shas + [x]) <==> Revisits(shas) || (x in shas && x != shas[|shas| - 1])
  {
    var all, n := shas + [x], |shas|;
    if Revisits(shas) {
      var i, j, k :| 0 <= i < j < k < n && shas[i] == shas[k] && shas[j] != shas[k];
      assert all[i] == all[k] && all[j] != all[k];
    }
    if x in shas && x != shas[n - 1] {
      var i :| 0 <= i < n && shas[i] == x;
      assert all[i] == all[n] && all[n - 1] != all[n];
    }
    if Revisits(all) {
      var i, j, k :| 0 <= i < j < k < |all| && all[i] == all[k] && all[j] != all[k];
      if k < n {
        assert shas[i] == shas[k] && shas[j] != shas[k];
      } else if shas[n - 1] == x {
        assert shas[i] == shas[n - 1] && shas[j] != shas[n - 1];
      } else {
        assert shas[i] == x;
      }
    }
  }

  /** `sent` has the members and the last element of `shas`, and repeats
      something exactly when `shas` revisits something. */
  ghost predicate Collapses(sent: seq<SHA>, shas: seq<SHA>) {
    && sent != [] && shas != []
    && (NoRepeats(sent) <==> !Revisits(shas))
    && (forall x :: x in sent <==> x in shas)
    && sent[|sent| - 1] == shas[|shas| - 1]
  }

  lemma CollapsesSame(sent: seq<SHA>, shas: seq<SHA>, x: SHA)
    requires Collapses(sent, shas) && x == shas[|shas| - 1]
    ensures Collapses(sent, shas + [x])
  {
    RevisitsSnoc(shas, x);
    assert x in shas;
  }

  lemma CollapsesNew(sent: seq<SHA>, shas: seq<SHA>, x: SHA)
    requires Collapses(sent, shas) && x != shas[|shas| - 1]
    ensures Collapses(sent + [x], shas + [x])
  {
    RevisitsSnoc(shas, x);
    NoRepeatsSnoc(sent, x);
  }

  /** Consecutive repeats removed. */
  function Collapse(shas: seq<SHA>): seq<SHA> {
    if |shas| <= 1 then shas else
      var n := |shas| - 1;
      if shas[n] == shas[n - 1] then Collapse(shas[..n]) else Collapse(shas[..n]) + [shas[n]]
  }

  lemma CollapseSnoc(shas: seq<SHA>, x: SHA)
    requires shas != []
    ensures Collapse(shas + [x]) == if x == shas[|shas| - 1] then Collapse(shas) else Collapse(shas) + [x]
  {
    assert (shas + [x])[..|shas|] == shas;
  }

  lemma {:induction false} CollapseExactly(shas: seq<SHA>)
    requires shas != []
    ensures Collapses(Collapse(shas), shas)
  {
    if |shas| > 1 {
      var before, x := shas[..|shas| - 1], shas[|shas| - 1];
      CollapseExactly(before);
      CollapseSnoc(before, x);
      if x == before[|before| - 1] {
        CollapsesSame(Collapse(before), before, x);
      } else {
        CollapsesNew(Collapse(before), before, x);
      }
      assert shas == before + [x];
    }
  }

  lemma CommitSHAsSnoc(events: seq<Event>, e: Event)
    requires e.CommitEvent? && forall d | d in events :: d.CommitEvent?
    ensures forall d | d in events + [e] :: d.CommitEvent?
    ensures CommitSHAs(events + [e]) == CommitSHAs(events) + [e.sha]
  {
  }

  /** The hashes announced so far are the heads' hashes, collapsed. */
  ghost predicate Announces(first: SHA, changes: seq<Event>, shas: seq<SHA>) {
    (forall e | e in changes :: e.CommitEvent?) && [first] + CommitSHAs(changes) == Collapse(shas)
  }

  lemma AnnouncesNew(first: SHA, changes: seq<Event>, shas: seq<SHA>, e: Event)
    requires Announces(first, changes, shas) && e.CommitEvent? && shas != [] && e.sha != shas[|shas| - 1]
    ensures Announces(first, changes + [e], shas + [e.sha])
  {
    CommitSHAsSnoc(changes, e);
    Associative([first], CommitSHAs(changes), [e.sha]);
    CollapseSnoc(shas, e.sha);
  }

  lemma AnnouncesSame(first: SHA, changes: seq<Event>, shas: seq<SHA>, x: SHA)
    requires Announces(first, changes, shas) && shas != [] && x == shas[|shas| - 1]
    ensures Announces(first, changes + [], shas + [x])
  {
    CollapseSnoc(shas, x);
    assert changes + [] == changes;
  }

  lemma {:induction false} AnnouncedHashes(branch: string, first: SHA, heads: seq<Head>)
    requires forall h | h in heads :: h.commit.Some?
    ensures Announces(first, Changes(branch, first, heads), SHAs(first, heads))
  {
    if heads != [] {
      var before, h := heads[..|heads| - 1], heads[|heads| - 1];
      AnnouncedHashes(branch, first, before);
      assert heads == before + [h];
      SHAsSnoc(first, before, h);
      ChangesSnoc(branch, first, before, h);
      var changes, shas := Changes(branch, first, before), SHAs(first, before);
      if h.sha == shas[|before|] {
        AnnouncesSame(first, changes, shas, h.sha);
      } else {
        AnnouncesNew(first, changes, shas, NewCommit(branch, h.sha, h.commit.value));
      }
    }
  }

  lemma SHAsSnoc(first: SHA, heads: seq<Head>, h: Head)
    ensures SHAs(first, heads + [h]) == SHAs(first, heads) + [h.sha]
  {
  }

  /** No commit is announced twice, nor the initial one at all, exactly when the
      branch never comes back to a head it had left. */
  lemma OncePerCommitExactly(branch: string, first: SHA, heads: seq<Head>)
    requires forall h | h in heads :: h.commit.Some?
    ensures forall e | e in Changes(branch, first, heads) :: e.CommitEvent?
    ensures NoRepeats([first] + CommitSHAs(Changes(branch, first, heads))) <==> !Revisits(SHAs(first, heads))
  {
    AnnouncedHashes(branch, first, heads);
    CollapseExactly(SHAs(first, heads));
  }

  /** A branch that goes back and forth announces the same commit twice. */
  lemma RevisitedCommitRepeats(branch: string, a: SHA, b: SHA, c: Commit)
    requires a != b
    ensures var show := (sha: SHA) => Observation(true, Some(Head(sha, Some(c))), None);
            EventsOver(branch, false, Memory(a, {}), [show(b), show(a), show(b)])
              == [NewCommit(branch, b, c), NewCommit(branch, a, c), NewCommit(branch, b, c)]
  {
    var show := (sha: SHA) => Observation(true, Some(Head(sha, Some(c))), None);
    var s := Memory(a, {});
    var obs := [show(b), show(a), show(b)];
    assert obs[..0] == [];
    EventsSnoc(branch, false, s, obs, 0);
    EventsSnoc(branch, false, s, obs, 1);
    EventsSnoc(branch, false, s, obs, 2);
    assert obs[..3] == obs;
  }

  // ---- tags

  /** The event for a tag after those of the names in `earlier`. */
  function Announce(earlier: set<string>, t: Tag): seq<Event> {
    if t.name in earlier || t.resolved.Unreadable? then [] else [NewTag(t)]
  }

  lemma OneMoreTag(known: set<string>, tags: seq<Tag>, t: Tag)
    ensures TagEvents(known, tags + [t]) == TagEvents(known, tags) + Announce(known + Names(tags), t)
    ensures Names(tags + [t]) == Names(tags) + {t.name}
  {
    assert (tags + [t])[..|tags|] == tags;
  }

  ghost predicate Distributes(known: set<string>, a: seq<Tag>, b: seq<Tag>) {
    && TagEvents(known, a + b) == TagEvents(known, a) + TagEvents(known + Names(a), b)
    && Names(a + b) == Names(a) + Names(b)
  }

  lemma Associative<T>(a: seq<T>, b: seq<T>, c: seq<T>)
    ensures a + (b + c) == (a + b) + c
  {
  }

  lemma DistributesSnoc(known: set<string>, a: seq<Tag>, c: seq<Tag>, t: Tag)
    requires Distributes(known, a, c)
    ensures Distributes(known, a, c + [t])
  {
    Associative(a, c, [t]);
    OneMoreTag(known, a + c, t);
    OneMoreTag(known + Names(a), c, t);
    assert known + Names(a + c) == known + Names(a) + Names(c);
    Associative(TagEvents(known, a), TagEvents(known + Names(a), c), Announce(known + Names(a + c), t));
  }

  lemma DistributesNothing(known: set<string>, a: seq<Tag>)
    ensures Distributes(known, a, [])
  {
    assert a + [] == a;
  }

  lemma {:induction false} TagEventsAppend(known: set<string>, a: seq<Tag>, b: seq<Tag>)
    ensures Distributes(known, a, b)
  {
    if b == [] {
      DistributesNothing(known, a);
    } else {
      var c, t := b[..|b| - 1], b[|b| - 1];
      assert b == c + [t];
      TagEventsAppend(known, a, c);
      DistributesSnoc(known, a, c, t);
    }
  }

  /** The tags sent over a run are those one pass over everything gone through
      would send, and the known tags are the initial ones and all gone through. */
  lemma {:induction false} TagsExactly(branch: string, s: Memory, obs: seq<Observation>)
    ensures Tags(EventsOver(branch, true, s, obs)) == TagEvents(s.known, AllListed(obs))
    ensures StateAfter(true, s, obs).known == s.known + Names(AllListed(obs))
  {
    if obs != [] {
      var before, o := obs[..|obs| - 1], obs[|obs| - 1];
      TagsExactly(branch, s, before);
      var was := StateAfter(true, s, before);
      SendsParts(branch, true, was, o);
      CommitsAppend(EventsOver(branch, true, s, before), Sends(branch, true, was, o));
      TagEventsAppend(s.known, AllListed(before), Listed(o));
    }
  }

  /** Where a name first occurs. */
  function FirstOf(tags: seq<Tag>, name: string): (i: nat)
    requires name in Names(tags)
    ensures i < |tags| && tags[i].name == name && name !in Names(tags[..i])
  {
    var n := |tags| - 1;
    if name in Names(tags[..n]) then
      var i := FirstOf(tags[..n], name);
      assert tags[..n][..i] == tags[..i];
      i
    else
      assert tags == tags[..n] + [tags[n]];
      n
  }

  lemma CountSnoc(events: seq<Event>, t: Tag, earlier: set<string>, name: string)
    ensures Count(events + Announce(earlier, t), name)
         == Count(events, name) + if t.name == name && name !in earlier && !t.resolved.Unreadable? then 1 else 0
  {
    var last := Announce(earlier, t);
    if last == [] {
      assert events + last == events;
    } else {
      assert (events + last)[..|events|] == events;
    }
  }

  lemma FirstSnoc(tags: seq<Tag>, t: Tag, name: string)
    requires name in Names(tags + [t])
    ensures FirstOf(tags + [t], name) == if name in Names(tags) then FirstOf(tags, name) else |tags|
  {
    assert (tags + [t])[..|tags|] == tags;
  }

  /** The name is new, and resolves the first time it is seen. */
  predicate Announced(known: set<string>, tags: seq<Tag>, name: string) {
    name !in known && name in Names(tags) && !tags[FirstOf(tags, name)].resolved.Unreadable?
  }

  /** Each name is announced at most once: just when it was not known at the
      start and resolves the first time it is seen. */
  lemma {:induction false} OncePerTagExactly(known: set<string>, tags: seq<Tag>, name: string)
    ensures Count(TagEvents(known, tags), name) == if Announced(known, tags, name) then 1 else 0
    ensures Announced(known, tags, name) ==> NewTag(tags[FirstOf(tags, name)]) in TagEvents(known, tags)
  {
    if tags == [] {
      assert Names(tags) == {};
    } else {
      var before, t := tags[..|tags| - 1], tags[|tags| - 1];
      assert tags == before + [t];
      OncePerTagExactly(known, before, name);
      OneMoreTag(known, before, t);
      CountSnoc(TagEvents(known, before), t, known + Names(before), name);
      if name in Names(tags) {
        FirstSnoc(before, t, name);
      }
    }
  }

  /** Whatever part of the events the consumer takes, no tag is announced twice
      and none that was there at the start. */
  lemma SentTagsOnce(branch: string, s: Memory, obs: seq<Observation>, accepted: nat, name: string)
    ensures Count(Take(EventsOver(branch, true, s, obs), accepted), name) <= if name in s.known then 0 else 1
  {
    var all := EventsOver(branch, true, s, obs);
    var sent := Take(all, accepted);
    assert all == sent + all[|sent|..];
    CountGrows(sent, all[|sent|..], name);
    CountTags(all, name);
    TagsExactly(branch, s, obs);
    OncePerTagExactly(s.known, AllListed(obs), name);
  }

  /** Likewise the commits taken are a prefix of the collapsed heads. */
  lemma SentCommitsPrefix(branch: string, watchTags: bool, s: Memory, obs: seq<Observation>, accepted: nat)
    ensures forall h | h in Heads(obs) :: h.commit.Some?
    ensures Commits(Take(EventsOver(branch, watchTags, s, obs), accepted)) <= Changes(branch, s.last, Heads(obs))
  {
    var all := EventsOver(branch, watchTags, s, obs);
    var sent := Take(all, accepted);
    assert all == sent + all[|sent|..];
    CommitsAppend(sent, all[|sent|..]);
    CommitsExactly(branch, watchTags, s, obs);
  }

  // ---- what the events say

  /** The event of a tag: its own hash, and what it resolves to. */
  predicate TellsTag(e: Event, t: Tag) {
    && e.TagEvent? && e.tag == t.name && e.tagSHA == t.sha
    && match t.resolved
       case Annotated(tagger, message, timestamp, target) =>
         e.commitSHA == target && e.message == message && e.author == tagger && e.timestamp == timestamp
       case Plain(c) =>
         e.commitSHA == t.sha && e.message == c.message && e.author == c.author && e.timestamp == c.timestamp
       case Unreadable => false
  }

  /** The event of a head: its hash in full and in short, its branch, its commit. */
  predicate TellsHead(e: Event, branch: string, h: Head) {
    && e.CommitEvent? && e.sha == h.sha && e.branch == branch && h.commit == Some(e.commit)
    && |e.short| == 7 && e.short <= e.sha
  }

  lemma {:induction false} TagEventsTell(known: set<string>, tags: seq<Tag>)
    ensures forall e | e in TagEvents(known, tags) :: exists t :: t in tags && t.name !in known && TellsTag(e, t)
  {
    if tags != [] {
      var before, t := tags[..|tags| - 1], tags[|tags| - 1];
      TagEventsTell(known, before);
      assert tags == before + [t];
      forall e | e in TagEvents(known, tags) ensures exists u :: u in tags && u.name !in known && TellsTag(e, u) {
        if e in TagEvents(known, before) {
          var u :| u in before && u.name !in known && TellsTag(e, u);
          assert u in tags;
        } else {
          assert e == NewTag(t) && TellsTag(e, t);
        }
      }
    }
  }

  lemma CommitEventsTell(branch: string, last: SHA, head: Option<Head>)
    ensures forall e | e in CommitEvents(branch, last, head) :: head.Some? && TellsHead(e, branch, head.value)
  {
  }

  /** What the tick showed that the event tells of. */
  ghost predicate Tells(e: Event, branch: string, o: Observation) {
    && o.fetched
    && if e.CommitEvent? then o.head.Some? && TellsHead(e, branch, o.head.value)
       else o.tags.Some? && exists t :: t in o.tags.value && TellsTag(e, t)
  }

  /** Every event sent tells, in each of its parts, of a head or a tag that some tick
      with a successful fetch showed. */
  lemma {:induction false} EventsTell(branch: string, watchTags: bool, s: Memory, obs: seq<Observation>)
    ensures forall e | e in EventsOver(branch, watchTags, s, obs) :: exists o :: o in obs && Tells(e, branch, o)
  {
    if obs != [] {
      var before, o := obs[..|obs| - 1], obs[|obs| - 1];
      EventsTell(branch, watchTags, s, before);
      assert obs == before + [o];
      var was := StateAfter(watchTags, s, before);
      CommitEventsTell(branch, was.last, Seen(o));
      TagEventsTell(was.known, Listed(o));
      forall e | e in EventsOver(branch, watchTags, s, obs) ensures exists p :: p in obs && Tells(e, branch, p) {
        if e in EventsOver(branch, watchTags, s, before) {
          var p :| p in before && Tells(e, branch, p);
          assert p in obs;
        } else {
          assert e in Sends(branch, watchTags, was, o);
          SendTells(branch, watchTags, was, o, e);
        }
      }
    }
  }

  lemma SendTells(branch: string, watchTags: bool, s: Memory, o: Observation, e: Event)
    requires e in Sends(branch, watchTags, s, o)
    ensures Tells(e, branch, o)
  {
    CommitEventsTell(branch, s.last, Seen(o));
    TagEventsTell(s.known, Listed(o));
  }

  /** A tick whose fetch fails sends nothing and changes nothing that is remembered. */
  lemma FailedFetchIsSilent(branch: string, watchTags: bool, s: Memory, o: Observation)
    requires !o.fetched
    ensures Sends(branch, watchTags, s, o) == [] && Polled(watchTags, s, o) == s
  {
    assert s.known + Names([]) == s.known;
  }

  /** Whatever failed fetches lie between them, the ticks that fetched decide what is
      sent and remembered. */
  lemma {:induction false} OnlyFetchesCount(branch: string, watchTags: bool, s: Memory, obs: seq<Observation>)
    ensures EventsOver(branch, watchTags, s, obs) == EventsOver(branch, watchTags, s, Fetched(obs))
    ensures StateAfter(watchTags, s, obs) == StateAfter(watchTags, s, Fetched(obs))
  {
    if obs != [] {
      var before, o := obs[..|obs| - 1], obs[|obs| - 1];
      OnlyFetchesCount(branch, watchTags, s, before);
      if o.fetched {
        assert (Fetched(before) + [o])[..|Fetched(before)|] == Fetched(before);
      } else {
        FailedFetchIsSilent(branch, watchTags, StateAfter(watchTags, s, before), o);
        var events := EventsOver(branch, watchTags, s, before);
        assert events + [] == events;
      }
    }
  }

  function Fetched(obs: seq<Observation>): seq<Observation> {
    if obs == [] then [] else
      var o := obs[|obs| - 1];
      if o.fetched then Fetched(obs[..|obs| - 1]) + [o] else Fetched(obs[..|obs| - 1])
  }

  /** Without `watch_tags` no tag is ever sent or remembered. */
  lemma {:induction false} UnwatchedTags(branch: string, s: Memory, obs: seq<Observation>)
    ensures Tags(EventsOver(branch, false, s, obs)) == [] && StateAfter(false, s, obs).known == s.known
  {
    if obs != [] {
      var before, o := obs[..|obs| - 1], obs[|obs| - 1];
      UnwatchedTags(branch, s, before);
      var was := StateAfter(false, s, before);
      SendsParts(branch, false, was, o);
      CommitsAppend(EventsOver(branch, false, s, before), Sends(branch, false, was, o));
    }
  }
}
