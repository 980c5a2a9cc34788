/** The announce protocol on the mail store: the listener's pump, and the clients that
  * post, poll and cache manifests. */
module Announce {
  import opened Outcomes
  import opened Merge
  import opened Broker
  import Channels
  import Profiles
  import M = Mailbox

  const ANNOUNCE := "announce"
  const EVENTS := "announce-events"
  const INVALIDATE := "invalidate"
  const REGISTRY := "registry"
  const LISTENER := "skeleton"

  datatype ErrorKind = Validation | Parse | Resolve | BrokerError

  /** What a payload turns out to be. `Incomplete` lacks a required identity field,
    * `Unparsable` is not even a mapping. */
  datatype Payload =
    | Hello(identity: Identity)
    | Incomplete
    | Unparsable
    | ManifestReply(manifest: Manifest)
    | ErrorReply(kind: ErrorKind)
    | Stale(target: string)
    | Other

  datatype Envelope = Envelope(from: string, to: string, payload: Payload)

  type Store = M.Store<Envelope>

  function Stamped(e: Envelope, at: int): M.Message<Envelope> {
    M.Message(e, Some(at))
  }

  function UnreadIn(st: Store, b: string): seq<Envelope> {
    M.Unread(M.View(M.BoxOf(st, b)))
  }

  // ---------- Handling one envelope ----------

  function RegisterAll(members: Channels.Members, subs: seq<Value>, mailbox: string): Channels.Members {
    if subs == [] then members
    else Channels.WithMember(RegisterAll(members, subs[..|subs| - 1], mailbox), subs[|subs| - 1], mailbox)
  }

  /** The channels before the first one whose name cannot be a dictionary key. */
  function Hashables(subs: seq<Value>): (r: seq<Value>)
    ensures |r| <= |subs| && r == subs[..|r|]
    ensures forall v :: v in r ==> Hashable(v)
    ensures |r| < |subs| ==> !Hashable(subs[|r|])
  {
    if subs == [] || !Hashable(subs[0]) then [] else [subs[0]] + Hashables(subs[1..])
  }

  /** The manifest can be registered and sent. */
  predicate Publishable(m: Manifest) {
    (forall v :: v in m.subscriptions ==> Hashable(v)) && WritableManifest(m)
  }

  function ReplyAddress(e: Envelope): string {
    if e.payload.Hello? then Primary(e.payload.identity) else if e.from != "" then e.from else "unknown"
  }

  /** The listener gets as far as a reply. */
  predicate Answerable(world: World, e: Envelope) {
    e.payload.Hello? && ResolveAnnounce(world, e.payload.identity).Ok? ==>
      Publishable(ResolveAnnounce(world, e.payload.identity).value)
  }

  function ReplyTo(world: World, e: Envelope): Envelope {
    Envelope(LISTENER, ReplyAddress(e),
      match e.payload
      case Hello(identity) =>
        (match ResolveAnnounce(world, identity)
         case Ok(m) => ManifestReply(m)
         case Err(NoProfile) => ErrorReply(Resolve)
         case Err(BrokerFailure) => ErrorReply(BrokerError))
      case Unparsable => ErrorReply(Parse)
      case _ => ErrorReply(Validation))
  }

  function MembersAfter(world: World, members: Channels.Members, e: Envelope): Channels.Members {
    if e.payload.Hello? && ResolveAnnounce(world, e.payload.identity).Ok?
    then RegisterAll(members, Hashables(ResolveAnnounce(world, e.payload.identity).value.subscriptions), Primary(e.payload.identity))
    else members
  }

  /** A batch of envelopes, handled in order until one of them makes the listener raise. */
  datatype Batch = Batch(replies: seq<Envelope>, members: Channels.Members, raised: bool)

  function HandleAll(world: World, members: Channels.Members, envelopes: seq<Envelope>): Batch {
    if envelopes == [] then Batch([], members, false)
    else
      var n := |envelopes| - 1;
      var before := HandleAll(world, members, envelopes[..n]);
      if before.raised then before
      else
        var next := MembersAfter(world, before.members, envelopes[n]);
        if Answerable(world, envelopes[n])
        then Batch(before.replies + [ReplyTo(world, envelopes[n])], next, false)
        else Batch(before.replies, next, true)
  }

  function Posted(st: Store, b: string, envelopes: seq<Envelope>, at: int): Store {
    if envelopes == [] then st
    else M.WithMessage(Posted(st, b, envelopes[..|envelopes| - 1], at), b, Stamped(envelopes[|envelopes| - 1], at))
  }

  class Listener {
    const bus: M.IMAPServer<Envelope>
    const channels: Channels.ChannelRegistry

    constructor (bus: M.IMAPServer<Envelope>, channels: Channels.ChannelRegistry)
      ensures this.bus == bus && this.channels == channels
    {
      this.bus, this.channels := bus, channels;
    }

    /** Registers the subscriptions one by one; stops at a name that cannot be a key. */
    method RegisterSubscriptions(subs: seq<Value>, mailbox: string) returns (raised: bool)
      modifies channels
      ensures channels.members == RegisterAll(old(channels.members), Hashables(subs), mailbox)
      ensures raised <==> Hashables(subs) != subs
    {
      ghost var good := Hashables(subs);
      for i := 0 to |subs|
        invariant i <= |good|
        invariant channels.members == RegisterAll(old(channels.members), subs[..i], mailbox)
      {
        assert i < |good| ==> good[i] in good;
        if subs[i].List? || subs[i].Dict? { return true; }
        assert subs[..i + 1][..i] == subs[..i];
        channels.RegisterMember(subs[i], mailbox);
      }
      assert subs[..|subs|] == subs;
      return false;
    }

    method HandleOne(world: World, e: Envelope, at: int) returns (raised: bool)
      modifies bus, channels
      ensures channels.members == MembersAfter(world, old(channels.members), e)
      ensures raised <==> !Answerable(world, e)
      ensures bus.State() == if raised then old(bus.State()) else M.WithMessage(old(bus.State()), EVENTS, Stamped(ReplyTo(world, e), at))
    {
      if e.payload.Hello? {
        var manifest := ResolveAnnounce(world, e.payload.identity);
        if manifest.Ok? {
          HashablesAll(manifest.value.subscriptions);
          raised := RegisterSubscriptions(manifest.value.subscriptions, Primary(e.payload.identity));
          if raised || !WritableManifest(manifest.value) { return true; }
        }
      }
      bus.Append(EVENTS, Stamped(ReplyTo(world, e), at));
      return false;
    }

    /** Processes all unread announces; stops where one of them raises. */
    method Pump(world: World, at: int) returns (processed: nat, raised: bool)
      modifies bus, channels
      ensures
        var envelopes := UnreadIn(old(bus.State()), ANNOUNCE);
        var batch := HandleAll(world, old(channels.members), envelopes);
        && processed == |envelopes| && raised == batch.raised
        && channels.members == batch.members
        && bus.State() == Posted(M.Fetched(old(bus.State()), ANNOUNCE), EVENTS, batch.replies, at)
    {
      var envelopes := bus.FetchUnseen(ANNOUNCE);
      hide ResolveAnnounce, M.Fetched, M.WithMessage, HandleAll, Posted, ReplyTo, MembersAfter, Answerable, Stamped, UnreadIn;
      processed, raised := |envelopes|, false;
      HandleNone(world, channels.members, bus.State(), at);
      assert envelopes[..0] == [];
      ghost var start, members := bus.State(), channels.members;
      var i: nat := 0;
      while i < |envelopes| && !raised
        invariant i <= |envelopes|
        invariant var batch := HandleAll(world, members, envelopes[..i]);
          raised == batch.raised && channels.members == batch.members
          && bus.State() == Posted(start, EVENTS, batch.replies, at)
      {
        HandleOneMore(world, members, envelopes, i, start, at);
        raised := HandleOne(world, envelopes[i], at);
        i := i + 1;
      }
      assert envelopes[..|envelopes|] == envelopes;
      if raised { RaisedStays(world, members, envelopes, i); }
    }
  }

  lemma HandleNone(world: World, members: Channels.Members, st: Store, at: int)
    ensures HandleAll(world, members, []) == Batch([], members, false) && Posted(st, EVENTS, [], at) == st
  {}

  lemma HandleOneMore(world: World, members: Channels.Members, envelopes: seq<Envelope>, i: nat, st: Store, at: int)
    requires i < |envelopes| && !HandleAll(world, members, envelopes[..i]).raised
    ensures
      var before, after := HandleAll(world, members, envelopes[..i]), HandleAll(world, members, envelopes[..i + 1]);
      var e := envelopes[i];
      && after.raised == !Answerable(world, e)
      && after.members == MembersAfter(world, before.members, e)
      && Posted(st, EVENTS, after.replies, at) ==
        if after.raised then Posted(st, EVENTS, before.replies, at)
        else M.WithMessage(Posted(st, EVENTS, before.replies, at), EVENTS, Stamped(ReplyTo(world, e), at))
  {
    hide ResolveAnnounce, ReplyTo, MembersAfter, Answerable, Stamped;
    assert envelopes[..i + 1][..i] == envelopes[..i];
    var before := HandleAll(world, members, envelopes[..i]);
    assert (before.replies + [ReplyTo(world, envelopes[i])])[..|before.replies|] == before.replies;
  }

  lemma HashablesAll(subs: seq<Value>)
    ensures Hashables(subs) == subs <==> forall v :: v in subs ==> Hashable(v)
  {
    var good := Hashables(subs);
    if |good| < |subs| { assert subs[|good|] in subs; }
  }

  lemma {:induction false} RaisedStays(world: World, members: Channels.Members, envelopes: seq<Envelope>, i: nat)
    requires i <= |envelopes| && HandleAll(world, members, envelopes[..i]).raised
    ensures HandleAll(world, members, envelopes) == HandleAll(world, members, envelopes[..i])
  {
    if i == |envelopes| {
      assert envelopes[..i] == envelopes;
    } else {
      var n := |envelopes| - 1;
      assert envelopes[..n][..i] == envelopes[..i];
      RaisedStays(world, members, envelopes[..n], i);
    }
  }

  /** One reply for each envelope, in order and to the right address, exactly when the
    * listener can answer them all; otherwise the first it cannot answer and all behind it
    * are consumed without a reply. */
  lemma {:induction false} OneReplyEach(world: World, members: Channels.Members, envelopes: seq<Envelope>)
    ensures
      var batch := HandleAll(world, members, envelopes);
      && |batch.replies| <= |envelopes|
      && (forall i :: 0 <= i < |batch.replies| ==> batch.replies[i] == ReplyTo(world, envelopes[i]) && Answerable(world, envelopes[i]))
      && (|batch.replies| == |envelopes| <==> !batch.raised)
      && (!batch.raised <==> forall e :: e in envelopes ==> Answerable(world, e))
      && (batch.raised ==> !Answerable(world, envelopes[|batch.replies|]))
  {
    if envelopes != [] {
      var n := |envelopes| - 1;
      OneReplyEach(world, members, envelopes[..n]);
      assert envelopes == envelopes[..n] + [envelopes[n]];
    }
  }

  /** What a reply to a complete identity tells its receiver about the profile files: a
    * manifest means that every profile it can reach is there and valid and that no path
    * is a cycle, and a resolve error means that some file it can reach is missing. */
  lemma ReplyTellsWhy(world: World, e: Envelope)
    requires e.payload.Hello?
    ensures
      var id, reply := e.payload.identity.agentId, ReplyTo(world, e).payload;
      && (reply.ManifestReply? ==> forall p :: Profiles.IsPath(world.dir, id, p) ==>
            Profiles.ValidDoc(world.dir, Profiles.End(p)) && Profiles.End(p) !in p[..|p| - 1])
      && (reply == ErrorReply(Resolve) ==>
            exists p :: Profiles.IsPath(world.dir, id, p) && Profiles.End(p) !in world.dir)
      && (reply.ManifestReply? || reply == ErrorReply(Resolve) || reply == ErrorReply(BrokerError))
  {
    hide Profiles.IsPath, Profiles.End, Profiles.ValidDoc, Profiles.Load, OnlineIds, Tools, ChannelNames, Acl, Surfaces, StateRefs;
    var id := e.payload.identity.agentId;
    Profiles.LoadSucceedsIff(world.dir, id);
    if Profiles.Load(world.dir, id, []).Err? { Profiles.LoadErrorIsReal(world.dir, id); }
  }

  /** Where a reply goes and what kind it is: to the agent's box and number for a complete
    * identity, otherwise back to the sender if it has a name; a validation error for a
    * mapping that is no identity, a parse error for what is no mapping, and for an identity
    * a manifest, a resolve error when some profile file is missing, or a broker error. */
  lemma ReplyKinds(world: World, e: Envelope)
    ensures
      var reply := ReplyTo(world, e);
      && reply.from == "skeleton"
      && reply.to == (if e.payload.Hello? then e.payload.identity.box + "." + e.payload.identity.boxN
                      else if e.from == "" then "unknown" else e.from)
      && (reply.payload == ErrorReply(Parse) <==> e.payload.Unparsable?)
      && (reply.payload == ErrorReply(Validation) <==> !e.payload.Hello? && !e.payload.Unparsable?)
      && (e.payload.Hello? ==>
            var loaded := Profiles.Load(world.dir, e.payload.identity.agentId, []);
            && (reply.payload == ErrorReply(Resolve) <==> loaded.Err? && loaded.error.NotFound?)
            && (loaded.Err? && !loaded.error.NotFound? ==> reply.payload == ErrorReply(BrokerError)))
  {
    hide Profiles.Load, OnlineIds, Tools, ChannelNames, Acl, Surfaces, StateRefs;
  }

  // ---------- Clients ----------

  datatype Outcome = Waiting | Got(manifest: Manifest) | Rejected(kind: ErrorKind)

  /** The first manifest or error addressed to the mailbox. */
  function Scan(replies: seq<Envelope>, mailbox: string): Outcome {
    if replies == [] then Waiting
    else if replies[0].to == mailbox && replies[0].payload.ManifestReply? then Got(replies[0].payload.manifest)
    else if replies[0].to == mailbox && replies[0].payload.ErrorReply? then Rejected(replies[0].payload.kind)
    else Scan(replies[1..], mailbox)
  }

  predicate IsReply(e: Envelope) {
    e.payload.ManifestReply? || e.payload.ErrorReply?
  }

  /** At position i stands the payload, addressed to the mailbox, and no reply to the
    * mailbox before it. */
  predicate FirstAt(replies: seq<Envelope>, mailbox: string, payload: Payload, i: nat) {
    i < |replies| && replies[i].to == mailbox && replies[i].payload == payload
    && forall j :: 0 <= j < i ==> !(replies[j].to == mailbox && IsReply(replies[j]))
  }

  /** The payload is that of the first reply addressed to the mailbox. */
  ghost predicate FirstReply(replies: seq<Envelope>, mailbox: string, payload: Payload) {
    exists i: nat :: FirstAt(replies, mailbox, payload, i)
  }

  lemma FirstReplyStep(replies: seq<Envelope>, mailbox: string, payload: Payload)
    requires replies != [] && (payload.ManifestReply? || payload.ErrorReply?)
    ensures FirstReply(replies, mailbox, payload) <==>
      if replies[0].to == mailbox && IsReply(replies[0]) then replies[0].payload == payload
      else FirstReply(replies[1..], mailbox, payload)
  {
    var rest := replies[1..];
    if i: nat :| FirstAt(replies, mailbox, payload, i) {
      if i > 0 {
        forall j | 0 <= j < i ensures rest[j] == replies[j + 1] {}
        assert FirstAt(rest, mailbox, payload, i - 1);
      } else {
        assert IsReply(replies[0]);
      }
    }
    if replies[0].to == mailbox && replies[0].payload == payload { assert FirstAt(replies, mailbox, payload, 0); }
    if !(replies[0].to == mailbox && IsReply(replies[0])) {
      if i: nat :| FirstAt(rest, mailbox, payload, i) {
        forall j | 0 < j <= i + 1 ensures replies[j] == rest[j - 1] {}
        assert FirstAt(replies, mailbox, payload, i + 1);
      }
    }
  }

  /** The outcome is decided by the first reply to the mailbox, whatever comes behind it:
    * a manifest is taken, an error is raised, and without any the client goes on waiting. */
  lemma {:induction false} FirstReplyDecides(replies: seq<Envelope>, mailbox: string)
    ensures forall m :: Scan(replies, mailbox) == Got(m) <==> FirstReply(replies, mailbox, ManifestReply(m))
    ensures forall k :: Scan(replies, mailbox) == Rejected(k) <==> FirstReply(replies, mailbox, ErrorReply(k))
    ensures Scan(replies, mailbox) == Waiting <==> forall e :: e in replies && e.to == mailbox ==> !IsReply(e)
  {
    if replies != [] {
      FirstReplyDecides(replies[1..], mailbox);
      hide FirstReply;
      forall m ensures Scan(replies, mailbox) == Got(m) <==> FirstReply(replies, mailbox, ManifestReply(m)) {
        FirstReplyStep(replies, mailbox, ManifestReply(m));
      }
      forall k ensures Scan(replies, mailbox) == Rejected(k) <==> FirstReply(replies, mailbox, ErrorReply(k)) {
        FirstReplyStep(replies, mailbox, ErrorReply(k));
      }
      assert replies == [replies[0]] + replies[1..];
    }
  }

  predicate Concerns(e: Envelope, agentId: string) {
    e.payload.Stale? && (e.payload.target == agentId || e.payload.target == REGISTRY)
  }

  predicate AnyConcerns(envelopes: seq<Envelope>, agentId: string) {
    exists e :: e in envelopes && Concerns(e, agentId)
  }

  class DatacenterClient {
    const identity: Identity
    const bus: M.IMAPServer<Envelope>
    var manifest: Option<Manifest>

    constructor (identity: Identity, bus: M.IMAPServer<Envelope>)
      ensures this.identity == identity && this.bus == bus && manifest == None
    {
      this.identity, this.bus, manifest := identity, bus, None;
    }

    method PostAnnounce(at: int)
      modifies bus
      ensures bus.State() == M.WithMessage(old(bus.State()), ANNOUNCE, Stamped(Envelope(Primary(identity), ANNOUNCE, Hello(identity)), at))
    {
      bus.Append(ANNOUNCE, Stamped(Envelope(Primary(identity), ANNOUNCE, Hello(identity)), at));
    }

    /** One turn of the polling loop. */
    method Poll() returns (outcome: Outcome)
      modifies this`manifest, bus
      ensures bus.State() == M.Fetched(old(bus.State()), EVENTS)
      ensures outcome == Scan(UnreadIn(old(bus.State()), EVENTS), Primary(identity))
      ensures manifest == if outcome.Got? then Some(outcome.manifest) else old(manifest)
      ensures var unread := UnreadIn(old(bus.State()), EVENTS);
        && (forall m :: outcome == Got(m) <==> FirstReply(unread, Primary(identity), ManifestReply(m)))
        && (forall k :: outcome == Rejected(k) <==> FirstReply(unread, Primary(identity), ErrorReply(k)))
    {
      hide FirstReply;
      FirstReplyDecides(UnreadIn(bus.State(), EVENTS), Primary(identity));
      var replies := bus.FetchUnseen(EVENTS);
      var target := Primary(identity);
      var i := 0;
      assert replies[0..] == replies;
      while i < |replies|
        invariant 0 <= i <= |replies|
        invariant Scan(replies, target) == Scan(replies[i..], target)
        invariant manifest == old(manifest)
      {
        var reply := replies[i];
        assert replies[i..][0] == reply && replies[i..][1..] == replies[i + 1..];
        if reply.to == target {
          if reply.payload.ManifestReply? {
            manifest := Some(reply.payload.manifest);
            return Got(reply.payload.manifest);
          }
          if reply.payload.ErrorReply? { return Rejected(reply.payload.kind); }
        }
        i := i + 1;
      }
      return Waiting;
    }

    /** Drains the invalidations; true when one of them concerns this client. */
    method DrainInvalidations() returns (relevant: bool)
      modifies bus
      ensures bus.State() == M.Fetched(old(bus.State()), INVALIDATE)
      ensures relevant <==> AnyConcerns(UnreadIn(old(bus.State()), INVALIDATE), identity.agentId)
    {
      var envelopes := bus.FetchUnseen(INVALIDATE);
      relevant := false;
      assert !AnyConcerns(envelopes[..0], identity.agentId);
      hide AnyConcerns;
      for i := 0 to |envelopes|
        invariant bus.State() == M.Fetched(old(bus.State()), INVALIDATE)
        invariant relevant <==> AnyConcerns(envelopes[..i], identity.agentId)
      {
        ConcernsOneMore(envelopes, i, identity.agentId);
        var e := envelopes[i];
        if e.payload.Stale? && (e.payload.target == identity.agentId || e.payload.target == REGISTRY) { relevant := true; }
      }
      assert envelopes[..|envelopes|] == envelopes;
    }
  }

  lemma ConcernsOneMore(envelopes: seq<Envelope>, i: nat, agentId: string)
    requires i < |envelopes|
    ensures AnyConcerns(envelopes[..i + 1], agentId) <==> AnyConcerns(envelopes[..i], agentId) || Concerns(envelopes[i], agentId)
  {
    hide Concerns;
    assert envelopes[..i + 1] == envelopes[..i] + [envelopes[i]];
    assert envelopes[i] in envelopes[..i + 1];
  }

  lemma {:induction false} ScanFinds(replies: seq<Envelope>, mailbox: string)
    requires Scan(replies, mailbox).Got?
    ensures exists e :: e in replies && e.to == mailbox && e.payload == ManifestReply(Scan(replies, mailbox).manifest)
  {
    if replies[0].to == mailbox && replies[0].payload.ManifestReply? {
      assert replies[0] in replies;
    } else {
      ScanFinds(replies[1..], mailbox);
    }
  }
}
