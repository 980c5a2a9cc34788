/** Cache invalidation: diffing snapshots of the profile directory and the registry. */
module Invalidator {
  import opened Outcomes
  import opened Counting

  datatype Reason = Added | Removed | Changed
  datatype Event = Event(target: string, reason: Reason)

  const REGISTRY := "registry"

  /** The etag of every readable profile, and the etag of the device registry. */
  datatype Snapshot = Snapshot(profiles: map<string, string>, registry: string)

  /** What a pump observes; the registry is None when its devices cannot be listed. */
  datatype Observation = Observation(profiles: map<string, string>, registry: Option<string>)

  function Observed(before: Snapshot, o: Observation): Snapshot {
    Snapshot(o.profiles, if o.registry.Some? then o.registry.value else before.registry)
  }

  predicate EtagChanged(before: Snapshot, after: Snapshot, id: string) {
    id in before.profiles && id in after.profiles && before.profiles[id] != after.profiles[id]
  }

  /** How often an event is published when the snapshot changes from one to the other. */
  function Due(before: Snapshot, after: Snapshot, e: Event): nat {
    match e.reason
    case Added => if e.target in after.profiles && e.target !in before.profiles then 1 else 0
    case Removed => if e.target in before.profiles && e.target !in after.profiles then 1 else 0
    case Changed =>
      (if EtagChanged(before, after, e.target) then 1 else 0)
      + if e.target == REGISTRY && before.registry != after.registry then 1 else 0
  }

  /** Exactly the due events, in any order within their groups. */
  ghost predicate Announces(before: Snapshot, after: Snapshot, events: seq<Event>) {
    forall e :: Count(events, e) == Due(before, after, e)
  }

  /** One event with the given reason for each of the targets, and no other. */
  ghost predicate OneEach(events: seq<Event>, targets: set<string>, reason: Reason) {
    forall e :: Count(events, e) == if e.reason == reason && e.target in targets then 1 else 0
  }

  function ChangedProfiles(before: map<string, string>, after: map<string, string>): set<string> {
    set id | id in after.Keys * before.Keys && after[id] != before[id]
  }

  class Watcher {
    var profileEtags: map<string, string>
    var registryEtag: string
    var published: seq<Event>      // every event that was handed to the mailbox

    constructor (start: Snapshot)
      ensures Current() == start && published == []
    {
      profileEtags, registryEtag, published := start.profiles, start.registry, [];
    }

    function Current(): Snapshot
      reads this
    {
      Snapshot(profileEtags, registryEtag)
    }

    method Publish(target: string, reason: Reason)
      modifies this`published
      ensures published == old(published) + [Event(target, reason)]
    {
      published := published + [Event(target, reason)];
    }

    method PublishAll(targets: set<string>, reason: Reason) returns (count: nat, ghost events: seq<Event>)
      modifies this`published
      ensures published == old(published) + events && count == |events| == |targets|
      ensures OneEach(events, targets, reason)
    {
      count, events := 0, [];
      var todo := targets;
      while todo != {}
        invariant todo <= targets
        invariant published == old(published) + events && count == |events| == |targets| - |todo|
        invariant OneEach(events, targets - todo, reason)
      {
        var t :| t in todo;
        todo := todo - {t};
        published := published + [Event(t, reason)];
        forall e ensures Count(events + [Event(t, reason)], e) == Count(events, e) + if e == Event(t, reason) then 1 else 0 {
          CountAppend(events, [Event(t, reason)], e);
        }
        events := events + [Event(t, reason)];
        count := count + 1;
      }
    }

    method PumpOnce(o: Observation) returns (count: nat, ghost events: seq<Event>)
      modifies this
      ensures Current() == Observed(old(Current()), o)
      ensures profileEtags == o.profiles && registryEtag == if o.registry == None then old(registryEtag) else o.registry.value
      ensures published == old(published) + events && count == |events|
      ensures Announces(old(Current()), Current(), events)
    {
      hide Count, Announces, Due, OneEach, ChangedProfiles;
      ghost var before := Current();
      var oldKeys, newKeys := profileEtags.Keys, o.profiles.Keys;
      var n1, added := PublishAll(newKeys - oldKeys, Added);
      var n2, removed := PublishAll(oldKeys - newKeys, Removed);
      var n3, changed := PublishAll(ChangedProfiles(profileEtags, o.profiles), Changed);
      profileEtags := o.profiles;
      count, events := n1 + n2 + n3, added + removed + changed;
      var newRegistry := if o.registry.Some? then o.registry.value else registryEtag;
      ghost var last := if newRegistry != registryEtag then [Event(REGISTRY, Changed)] else [];
      if newRegistry != registryEtag {
        count := count + 1;
        registryEtag := newRegistry;
        Publish(REGISTRY, Changed);
      } else {
        EmptyLast(published);
      }
      events := events + last;
      Regroup(old(published), added, removed, changed, last);
      DueTogether(before, Current(), added, removed, changed, last);
    }
  }

  lemma EmptyLast(xs: seq<Event>)
    ensures xs + [] == xs
  {}

  lemma Regroup(a: seq<Event>, b: seq<Event>, c: seq<Event>, d: seq<Event>, e: seq<Event>)
    ensures a + b + c + d + e == a + (b + c + d + e)
  {}

  lemma DueTogether(before: Snapshot, after: Snapshot, added: seq<Event>, removed: seq<Event>, changed: seq<Event>, last: seq<Event>)
    requires OneEach(added, after.profiles.Keys - before.profiles.Keys, Added)
    requires OneEach(removed, before.profiles.Keys - after.profiles.Keys, Removed)
    requires OneEach(changed, ChangedProfiles(before.profiles, after.profiles), Changed)
    requires last == if after.registry != before.registry then [Event(REGISTRY, Changed)] else []
    ensures Announces(before, after, added + removed + changed + last)
  {
    forall e ensures Count(added + removed + changed + last, e) == Due(before, after, e) {
      CountAppend(added, removed, e);
      CountAppend(added + removed, changed, e);
      CountAppend(added + removed + changed, last, e);
    }
  }

  // ---------- Replaying the events ----------

  function Replay(keys: set<string>, events: seq<Event>): set<string> {
    if events == [] then keys
    else
      var n := |events| - 1;
      var before := Replay(keys, events[..n]);
      match events[n].reason
      case Added => before + {events[n].target}
      case Removed => before - {events[n].target}
      case Changed => before
  }

  lemma {:induction false} ReplayMember(keys: set<string>, events: seq<Event>, t: string)
    requires Count(events, Event(t, Added)) == 0 || Count(events, Event(t, Removed)) == 0
    ensures t in Replay(keys, events) <==>
      Count(events, Event(t, Added)) > 0 || (t in keys && Count(events, Event(t, Removed)) == 0)
  {
    if events != [] {
      var n := |events| - 1;
      assert events == events[..n] + [events[n]];
      CountAppend(events[..n], [events[n]], Event(t, Added));
      CountAppend(events[..n], [events[n]], Event(t, Removed));
      ReplayMember(keys, events[..n], t);
    }
  }

  lemma ReplayOnePump(before: Snapshot, after: Snapshot, events: seq<Event>)
    requires Announces(before, after, events)
    ensures Replay(before.profiles.Keys, events) == after.profiles.Keys
  {
    forall t ensures t in Replay(before.profiles.Keys, events) <==> t in after.profiles.Keys {
      assert Count(events, Event(t, Added)) == Due(before, after, Event(t, Added));
      assert Count(events, Event(t, Removed)) == Due(before, after, Event(t, Removed));
      ReplayMember(before.profiles.Keys, events, t);
    }
  }

  lemma {:induction false} ReplayAppend(keys: set<string>, xs: seq<Event>, ys: seq<Event>)
    ensures Replay(keys, xs + ys) == Replay(Replay(keys, xs), ys)
  {
    if ys == [] {
      assert xs + ys == xs;
    } else {
      assert (xs + ys)[..|xs + ys| - 1] == xs + ys[..|ys| - 1];
      ReplayAppend(keys, xs, ys[..|ys| - 1]);
    }
  }

  function StateAfter(start: Snapshot, observations: seq<Observation>): Snapshot {
    if observations == [] then start
    else Observed(StateAfter(start, observations[..|observations| - 1]), observations[|observations| - 1])
  }

  /** Observation i is the last one in which the registry could be read. */
  predicate ReadsLast(observations: seq<Observation>, i: nat) {
    i < |observations| && observations[i].registry.Some? && forall j :: i < j < |observations| ==> observations[j].registry.None?
  }

  /** What a watcher knows after any observations: the last profiles, and the etag of the last
    * registry that could be read. */
  lemma {:induction false} KnowsLastReadable(start: Snapshot, observations: seq<Observation>)
    ensures observations != [] ==> StateAfter(start, observations).profiles == observations[|observations| - 1].profiles
    ensures forall i :: 0 <= i < |observations| && ReadsLast(observations, i) ==>
      StateAfter(start, observations).registry == observations[i].registry.value
    ensures (forall i :: 0 <= i < |observations| ==> observations[i].registry.None?) ==>
      StateAfter(start, observations).registry == start.registry
  {
    if observations != [] {
      var n := |observations| - 1;
      var before := observations[..n];
      KnowsLastReadable(start, before);
      forall i | 0 <= i < n && ReadsLast(observations, i) ensures ReadsLast(before, i) && observations[n].registry.None? {}
    }
  }

  function Together(batches: seq<seq<Event>>): seq<Event> {
    if batches == [] then [] else Together(batches[..|batches| - 1]) + batches[|batches| - 1]
  }

  /** Over any sequence of observations, replaying everything that was published from
    * the first profile set gives the current one. */
  lemma {:induction false} InvalidationReplay(start: Snapshot, observations: seq<Observation>, batches: seq<seq<Event>>)
    requires |batches| == |observations|
    requires forall i :: 0 <= i < |batches| ==>
      Announces(StateAfter(start, observations[..i]), StateAfter(start, observations[..i + 1]), batches[i])
    ensures Replay(start.profiles.Keys, Together(batches)) == StateAfter(start, observations).profiles.Keys
  {
    if batches != [] {
      var n := |batches| - 1;
      var obs, front := observations[..n], batches[..n];
      forall i | 0 <= i < n
        ensures Announces(StateAfter(start, obs[..i]), StateAfter(start, obs[..i + 1]), front[i])
      {
        assert obs[..i] == observations[..i] && obs[..i + 1] == observations[..i + 1];
        assert Announces(StateAfter(start, observations[..i]), StateAfter(start, observations[..i + 1]), batches[i]);
      }
      InvalidationReplay(start, obs, front);
      assert observations[..n + 1] == observations;
      assert Announces(StateAfter(start, observations[..n]), StateAfter(start, observations[..n + 1]), batches[n]);
      ReplayOnePump(StateAfter(start, obs), StateAfter(start, observations), batches[n]);
      ReplayAppend(start.profiles.Keys, Together(front), batches[n]);
    }
  }

  /** No event is published twice in one pump, except that a profile named like the
    * registry target is announced twice when its etag and the registry's both change. */
  lemma AnnouncedOnce(before: Snapshot, after: Snapshot, events: seq<Event>)
    requires Announces(before, after, events)
    ensures (forall e :: Count(events, e) <= 1) <==>
      !(EtagChanged(before, after, REGISTRY) && before.registry != after.registry)
  {
    hide Count;
    if EtagChanged(before, after, REGISTRY) && before.registry != after.registry {
      var twice := Event(REGISTRY, Changed);
      assert Due(before, after, twice) == 2;
      assert Count(events, twice) == Due(before, after, twice);
    } else {
      forall e ensures Count(events, e) <= 1 { assert Count(events, e) == Due(before, after, e); }
    }
  }

  /** Such a pump: the two snapshots, and the only events it can publish. */
  lemma RegistryAnnouncedTwice(p1: string, p2: string, r1: string, r2: string)
    requires p1 != p2 && r1 != r2
    ensures Announces(Snapshot(map[REGISTRY := p1], r1), Snapshot(map[REGISTRY := p2], r2),
      [Event(REGISTRY, Changed), Event(REGISTRY, Changed)])
  {
    var e := Event(REGISTRY, Changed);
    forall x ensures Count([e, e], x) == if x == e then 2 else 0 {
      CountAppend([e], [e], x);
      assert [e] + [e] == [e, e] && Count([e], x) == if x == e then 1 else 0;
    }
  }

  /** A pump is silent exactly when no profile appeared, vanished or changed its etag and
    * the registry etag stayed the same. */
  lemma SilentIffUnchanged(before: Snapshot, after: Snapshot, events: seq<Event>)
    requires Announces(before, after, events)
    ensures events == [] <==> before == after
  {
    if events == [] {
      assert forall e :: Due(before, after, e) == 0 by {
        forall e ensures Due(before, after, e) == 0 { assert Count(events, e) == Due(before, after, e); }
      }
      forall id ensures id in before.profiles <==> id in after.profiles {
        assert Due(before, after, Event(id, Added)) == 0 && Due(before, after, Event(id, Removed)) == 0;
      }
      forall id | id in before.profiles ensures before.profiles[id] == after.profiles[id] {
        assert Due(before, after, Event(id, Changed)) == 0;
      }
      assert before.profiles == after.profiles;
      assert Due(before, after, Event(REGISTRY, Changed)) == 0;
    } else {
      CountIn(events, events[0]);
      assert Count(events, events[0]) == Due(before, after, events[0]);
    }
  }
}
