/** The git subscriber's poll loop: what it remembers between polls and which
    events that makes it send. */
module GitPoll {
  import opened Wrappers

  /** A hash in hexadecimal. */
  type SHA = s: string | |s| == 40 witness seq(40, _ => '0')

  datatype Person = Person(name: string, email: string)

  datatype Commit = Commit(author: Person, committer: Person, message: string, timestamp: int)

  /** What a tag's hash resolves to: a tag object, else a commit, else nothing. */
  datatype Resolved =
    | Annotated(tagger: Person, message: string, timestamp: int, target: SHA)
    | Plain(commit: Commit)
    | Unreadable

  datatype Tag = Tag(name: string, sha: SHA, resolved: Resolved)

  datatype Head = Head(sha: SHA, commit: Option<Commit>)

  /** What the repository shows at one tick; `tags` is what the listing went
      through before it ended or failed. */
  datatype Observation = Observation(fetched: bool, head: Option<Head>, tags: Option<seq<Tag>>)

  datatype Event =
    | CommitEvent(sha: SHA, short: string, branch: string, commit: Commit)
    | TagEvent(tag: string, tagSHA: SHA, commitSHA: SHA, message: string, author: Person, timestamp: int)

  function NewCommit(branch: string, sha: SHA, commit: Commit): Event {
    CommitEvent(sha, sha[..7], branch, commit)
  }

  function NewTag(tag: Tag): Event
    requires !tag.resolved.Unreadable?
  {
    match tag.resolved
    case Annotated(tagger, message, timestamp, target) => TagEvent(tag.name, tag.sha, target, message, tagger, timestamp)
    case Plain(c) => TagEvent(tag.name, tag.sha, tag.sha, c.message, c.author, c.timestamp)
  }

  function Names(tags: seq<Tag>): set<string> { set t | t in tags :: t.name }

  // ---- what one poll does

  datatype Memory = Memory(last: SHA, known: set<string>)

  function CommitEvents(branch: string, last: SHA, head: Option<Head>): seq<Event> {
    if head.Some? && head.value.sha != last && head.value.commit.Some?
    then [NewCommit(branch, head.value.sha, head.value.commit.value)] else []
  }

  function LastAfter(last: SHA, head: Option<Head>): SHA {
    if head.Some? && head.value.commit.Some? then head.value.sha else last
  }

  /** The event for the `i`-th tag gone through, if it is the first of its name,
      not known before, and resolves. */
  function TagEventAt(known: set<string>, tags: seq<Tag>, i: nat): seq<Event>
    requires i < |tags|
  {
    if tags[i].name in known + Names(tags[..i]) || tags[i].resolved.Unreadable? then [] else [NewTag(tags[i])]
  }

  function TagEvents(known: set<string>, tags: seq<Tag>): seq<Event> {
    if tags == [] then [] else
      TagEvents(known, tags[..|tags| - 1]) + TagEventAt(known, tags, |tags| - 1)
  }

  function Listed(o: Observation): seq<Tag> {
    if o.fetched && o.tags.Some? then o.tags.value else []
  }

  function Seen(o: Observation): Option<Head> {
    if o.fetched then o.head else None
  }

  function Polled(watchTags: bool, s: Memory, o: Observation): Memory {
    Memory(LastAfter(s.last, Seen(o)), if watchTags then s.known + Names(Listed(o)) else s.known)
  }

  function Sends(branch: string, watchTags: bool, s: Memory, o: Observation): seq<Event> {
    CommitEvents(branch, s.last, Seen(o)) + if watchTags then TagEvents(s.known, Listed(o)) else []
  }

  function StateAfter(watchTags: bool, s: Memory, obs: seq<Observation>): Memory {
    if obs == [] then s else
      Polled(watchTags, StateAfter(watchTags, s, obs[..|obs| - 1]), obs[|obs| - 1])
  }

  function EventsOver(branch: string, watchTags: bool, s: Memory, obs: seq<Observation>): seq<Event> {
    if obs == [] then [] else
      var before := obs[..|obs| - 1];
      EventsOver(branch, watchTags, s, before)
      + Sends(branch, watchTags, StateAfter(watchTags, s, before), obs[|obs| - 1])
  }

  lemma EventsSnoc(branch: string, watchTags: bool, s: Memory, obs: seq<Observation>, i: nat)
    requires i < |obs|
    ensures StateAfter(watchTags, s, obs[..i + 1]) == Polled(watchTags, StateAfter(watchTags, s, obs[..i]), obs[i])
    ensures EventsOver(branch, watchTags, s, obs[..i + 1])
         == EventsOver(branch, watchTags, s, obs[..i]) + Sends(branch, watchTags, StateAfter(watchTags, s, obs[..i]), obs[i])
  {
    assert obs[..i + 1][..i] == obs[..i];
  }

  lemma {:induction false} EventsGrow(branch: string, watchTags: bool, s: Memory, obs: seq<Observation>, i: nat)
    requires i <= |obs|
    ensures EventsOver(branch, watchTags, s, obs[..i]) <= EventsOver(branch, watchTags, s, obs)
    decreases |obs| - i
  {
    if i == |obs| {
      assert obs[..i] == obs;
    } else {
      EventsSnoc(branch, watchTags, s, obs, i);
      EventsGrow(branch, watchTags, s, obs, i + 1);
    }
  }

  lemma TagEventsSnoc(known: set<string>, tags: seq<Tag>, i: nat)
    requires i < |tags|
    ensures TagEvents(known, tags[..i + 1]) == TagEvents(known, tags[..i]) + TagEventAt(known, tags, i)
    ensures Names(tags[..i + 1]) == Names(tags[..i]) + {tags[i].name}
  {
    assert tags[..i + 1][..i] == tags[..i];
    assert tags[..i + 1] == tags[..i] + [tags[i]];
  }

  /** The first `n` of `events`, or all of them. */
  function Take(events: seq<Event>, n: nat): seq<Event> {
    if n <= |events| then events[..n] else events
  }

  class Subscriber {
    const branch: string
    const watchTags: bool
    var lastCommitSHA: SHA
    var knownTags: set<string> // the keys of the map, whose values are all true

    constructor (branch: string, watchTags: bool)
      ensures this.branch == branch && this.watchTags == watchTags
    {
      this.branch, this.watchTags := branch, watchTags;
      knownTags := {};
    }

    ghost function State(): Memory
      reads this
    {
      Memory(lastCommitSHA, knownTags)
    }

    /** `listing` is absent when the tags cannot be listed; `complete` says that
        going through them did not fail. */
    method InitializeState(head: Option<SHA>, listing: Option<seq<Tag>>, complete: bool) returns (ok: bool)
      modifies this
      ensures ok <==> head.Some? && (watchTags ==> listing.Some? && complete)
      ensures ok ==> lastCommitSHA == head.value
      ensures ok ==> knownTags == if watchTags then Names(listing.value) else old(knownTags)
    {
      if head.None? {
        return false;
      }
      lastCommitSHA := head.value;
      if watchTags {
        knownTags := {};
        if listing.None? {
          return false;
        }
        var tags := listing.value;
        for k := 0 to |tags|
          invariant knownTags == Names(tags[..k]) && lastCommitSHA == head.value
        {
          knownTags := knownTags + {tags[k].name};
          TagEventsSnoc({}, tags, k);
        }
        assert tags[..|tags|] == tags;
        return complete;
      }
      return true;
    }

    method CheckNewCommits(head: Option<Head>) returns (evt: Option<Event>)
      modifies this
      ensures State() == old(State()).(last := LastAfter(old(lastCommitSHA), head))
      ensures (if evt.Some? then [evt.value] else []) == CommitEvents(branch, old(lastCommitSHA), head)
    {
      if head.None? {
        return None;
      }
      var currentSHA := head.value.sha;
      if currentSHA == lastCommitSHA {
        return None;
      }
      if head.value.commit.None? {
        return None;
      }
      lastCommitSHA := currentSHA;
      return Some(NewCommit(branch, currentSHA, head.value.commit.value));
    }

    method CheckNewTags(listing: Option<seq<Tag>>) returns (events: seq<Event>)
      modifies this
      ensures var tags := if listing.Some? then listing.value else [];
              && State() == old(State()).(known := old(knownTags) + Names(tags))
              && events == TagEvents(old(knownTags), tags)
    {
      if listing.None? {
        return [];
      }
      var tags := listing.value;
      events := [];
      for k := 0 to |tags|
        invariant State() == old(State()).(known := old(knownTags) + Names(tags[..k]))
        invariant events == TagEvents(old(knownTags), tags[..k])
      {
        TagEventsSnoc(old(knownTags), tags, k);
        var tag := tags[k];
        if tag.name !in knownTags {
          knownTags := knownTags + {tag.name};
          if !tag.resolved.Unreadable? {
            events := events + [NewTag(tag)];
          }
        }
      }
      assert tags[..|tags|] == tags;
    }

    /** Sends one by one until the consumer has taken `room` events. */
    method SendEach(events: seq<Event>, room: nat) returns (sent: seq<Event>, abandoned: bool)
      ensures sent == Take(events, room) && (abandoned <==> |events| > room)
    {
      sent := [];
      for k := 0 to |events|
        invariant sent == events[..k] && k <= room
      {
        if k == room {
          return sent, true;
        }
        sent := sent + [events[k]];
      }
      return sent, false;
    }

    /** One tick, with a consumer that takes `room` more events; the send after
        that is abandoned to the context. */
    method PollOnce(o: Observation, room: nat) returns (sent: seq<Event>, abandoned: bool)
      modifies this
      ensures sent == Take(Sends(branch, watchTags, old(State()), o), room)
      ensures abandoned <==> |Sends(branch, watchTags, old(State()), o)| > room
      ensures !abandoned ==> State() == Polled(watchTags, old(State()), o)
    {
      if !o.fetched {
        return [], false;
      }
      ghost var first := CommitEvents(branch, lastCommitSHA, o.head);
      ghost var tagged := TagEvents(knownTags, Listed(o));
      assert Sends(branch, watchTags, State(), o) == first + if watchTags then tagged else [];
      var evt := CheckNewCommits(o.head);
      sent := [];
      if evt.Some? {
        if room == 0 {
          return [], true;
        }
        sent := [evt.value];
      }
      if !watchTags {
        return sent, false;
      }
      var events := CheckNewTags(o.tags);
      assert sent == first && events == tagged;
      var more, cut := SendEach(events, room - |sent|);
      TakeAppend(first, tagged, first + tagged, room);
      return sent + more, cut;
    }

    /** The goroutine over the ticks before its context ends. */
    method Poll(obs: seq<Observation>, accepted: nat) returns (sent: seq<Event>)
      modifies this
      ensures sent == Take(EventsOver(branch, watchTags, old(State()), obs), accepted)
      ensures |EventsOver(branch, watchTags, old(State()), obs)| <= accepted ==>
                State() == StateAfter(watchTags, old(State()), obs)
    {
      sent := [];
      ghost var s := State();
      for i := 0 to |obs|
        invariant State() == StateAfter(watchTags, s, obs[..i])
        invariant sent == EventsOver(branch, watchTags, s, obs[..i]) && |sent| <= accepted
      {
        EventsSnoc(branch, watchTags, s, obs, i);
        EventsGrow(branch, watchTags, s, obs, i + 1);
        ghost var now := Sends(branch, watchTags, State(), obs[i]);
        var part, abandoned := PollOnce(obs[i], accepted - |sent|);
        TakeAppend(sent, now, EventsOver(branch, watchTags, s, obs), accepted);
        sent := sent + part;
        if abandoned {
          return;
        }
      }
      assert obs[..|obs|] == obs;
    }
  }

  lemma TakeAppend(sent: seq<Event>, now: seq<Event>, all: seq<Event>, n: nat)
    requires sent + now <= all && |sent| <= n
    ensures n < |sent + now| ==> sent + Take(now, n - |sent|) == Take(all, n)
    ensures n >= |sent + now| ==> Take(now, n - |sent|) == now
  {
  }
}
