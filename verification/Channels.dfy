/** Channel membership and fan-out to the members' own mailboxes. */
module Channels {
  import opened Counting
  import opened Merge
  import Mailbox

  /** A channel name, which is any YAML scalar, as a dictionary key: a boolean is the same
    * key as its number. */
  function Key(channel: Value): Value {
    match channel
    case Bool(b) => Num(if b then 1 else 0)
    case _ => channel
  }

  /** Two channel names share a key exactly when they are the same, or a boolean and its number. */
  lemma SameKeyIff(a: Value, b: Value)
    ensures Key(a) == Key(b) <==>
      || a == b
      || (a == Bool(true) && b == Num(1)) || (a == Num(1) && b == Bool(true))
      || (a == Bool(false) && b == Num(0)) || (a == Num(0) && b == Bool(false))
  {}

  /** The list names the channel. */
  predicate Lists(names: seq<Value>, channel: Value) {
    exists name :: name in names && Key(name) == Key(channel)
  }

  /** The member mailboxes of each channel, by its key. */
  type Members = map<Value, seq<string>>

  const SHARED := Str("shared")

  function MembersOf(members: Members, channel: Value): seq<string> {
    if Key(channel) in members then members[Key(channel)] else []
  }

  function WithMember(members: Members, channel: Value, mailbox: string): Members {
    var list := MembersOf(members, channel);
    members[Key(channel) := if mailbox in list then list else list + [mailbox]]
  }

  predicate NoDuplicates(list: seq<string>) {
    forall i, j :: 0 <= i < j < |list| ==> list[i] != list[j]
  }

  predicate AllDistinct(members: Members) {
    forall ch :: ch in members ==> NoDuplicates(members[ch])
  }

  lemma WithMemberDistinct(members: Members, channel: Value, mailbox: string)
    requires AllDistinct(members)
    ensures AllDistinct(WithMember(members, channel, mailbox))
    ensures forall ch, mb ::
      mb in MembersOf(WithMember(members, channel, mailbox), ch) <==> mb in MembersOf(members, ch) || (Key(ch) == Key(channel) && mb == mailbox)
  {}

  // ---------- Fan-out ----------

  /** One copy appended for every target whose delivery does not fail. */
  function Delivered<E>(st: Mailbox.Store<E>, targets: seq<string>, m: Mailbox.Message<E>, failing: set<string>): Mailbox.Store<E> {
    if targets == [] then st
    else
      var n := |targets| - 1;
      var before := Delivered(st, targets[..n], m, failing);
      if targets[n] in failing then before else Mailbox.WithMessage(before, targets[n], m)
  }

  function Successes(targets: seq<string>, failing: set<string>): nat {
    if targets == [] then 0
    else Successes(targets[..|targets| - 1], failing) + if targets[|targets| - 1] in failing then 0 else 1
  }

  class ChannelRegistry {
    var members: Members

    constructor ()
      ensures members == map[SHARED := []]
    {
      members := map[SHARED := []];
    }

    method RegisterMember(channel: Value, mailbox: string)
      modifies this
      ensures members == WithMember(old(members), channel, mailbox)
    {
      var key := Key(channel);
      if key !in members { members := members[key := []]; }
      if mailbox !in members[key] { members := members[key := members[key] + [mailbox]]; }
      assert members == WithMember(old(members), channel, mailbox);
    }

    method UnregisterMember(channel: Value, mailbox: string)
      modifies this
      ensures members == if Key(channel) in old(members) then old(members)[Key(channel) := RemoveFirst(old(members)[Key(channel)], mailbox)] else old(members)
    {
      var key := Key(channel);
      if key in members {
        if mailbox in members[key] {
          members := members[key := RemoveFirst(members[key], mailbox)];
        } else {
          RemoveAbsent(members[key], mailbox);
        }
      }
      assert key in members ==> members == old(members)[key := members[key]];
    }

    /** Best-effort delivery to every member; a failing mailbox is skipped. */
    method FanOut<E>(channel: Value, m: Mailbox.Message<E>, bus: Mailbox.IMAPServer<E>, failing: set<string>) returns (count: nat)
      modifies bus
      ensures bus.State() == Delivered(old(bus.State()), MembersOf(members, channel), m, failing)
      ensures count == Successes(MembersOf(members, channel), failing)
    {
      var targets := MembersOf(members, channel);
      count := 0;
      if targets == [] { return; }
      for i := 0 to |targets|
        invariant bus.State() == Delivered(old(bus.State()), targets[..i], m, failing)
        invariant count == Successes(targets[..i], failing)
      {
        assert targets[..i + 1][..i] == targets[..i];
        if targets[i] !in failing {
          bus.Append(targets[i], m);
          count := count + 1;
        }
      }
      assert targets[..|targets|] == targets;
    }
  }

  lemma {:induction false} RemoveAbsent(list: seq<string>, mailbox: string)
    requires mailbox !in list
    ensures RemoveFirst(list, mailbox) == list
  {
    if list != [] { RemoveAbsent(list[1..], mailbox); }
  }

  lemma LastIsNew(list: seq<string>)
    requires list != [] && NoDuplicates(list)
    ensures NoDuplicates(list[..|list| - 1]) && list[|list| - 1] !in list[..|list| - 1]
    ensures forall x :: x in list <==> x in list[..|list| - 1] || x == list[|list| - 1]
  {
    assert list == list[..|list| - 1] + [list[|list| - 1]];
  }

  /** Fan-out gives each member whose mailbox works exactly one more copy, and touches no
    * other mailbox. */
  lemma {:induction false} FanOutOnceEach<E>(st: Mailbox.Store<E>, targets: seq<string>, m: Mailbox.Message<E>, failing: set<string>, b: string)
    requires NoDuplicates(targets)
    ensures Mailbox.BoxOf(Delivered(st, targets, m, failing), b) ==
      if b in targets && b !in failing then Mailbox.Appended(Mailbox.BoxOf(st, b), m) else Mailbox.BoxOf(st, b)
  {
    if targets != [] {
      hide NoDuplicates;
      var n := |targets| - 1;
      LastIsNew(targets);
      FanOutOnceEach(st, targets[..n], m, failing, b);
    }
  }

  /** The count is the number of members whose mailbox works. */
  lemma {:induction false} FanOutCount(targets: seq<string>, failing: set<string>)
    requires NoDuplicates(targets)
    ensures Successes(targets, failing) == |(set t | t in targets) - failing|
  {
    if targets == [] {
      assert (set t | t in targets) - failing == {};
    } else {
      var n := |targets| - 1;
      LastIsNew(targets);
      FanOutCount(targets[..n], failing);
      var before := (set t | t in targets[..n]) - failing;
      assert (set t | t in targets) - failing == before + if targets[n] in failing then {} else {targets[n]};
    }
  }
}
