/** Runs of the announce protocol: one listener, any number of clients, and everybody
  * else who may post on the announce mailbox. */
module AnnounceRuns {
  import opened Addresses
  import opened Outcomes
  import opened Merge
  import opened Broker
  import opened Announce
  import Channels
  import Profiles
  import M = Mailbox

  datatype Client = Client(identity: Identity, manifest: Option<Manifest>, waiting: bool)

  /** A manifest reply that the listener has sent, with the world it was made from. */
  datatype Issue = Issue(world: World, identity: Identity, manifest: Manifest)

  /** An announce that the listener has fetched, with the world it was handled in. */
  datatype Consumed = Consumed(world: World, envelope: Envelope)

  /** The store, the world, the members and the clients, with logs of the manifests
    * issued, of the announces consumed and those of them answered, of the replies, and of
    * the announces at which a pump raised. */
  datatype Sys = Sys(
    st: Store,
    world: World,
    members: Channels.Members,
    clients: map<nat, Client>,
    issues: seq<Issue>,
    consumed: seq<Consumed>,
    answered: seq<Consumed>,
    replied: seq<Envelope>,
    stopped: seq<Consumed>)

  /** Steps of clients, of the listener, of the invalidator, and of everybody else: any
    * device may post anything on the announce mailbox, and the profiles, the registry
    * and the live devices may change at any time. */
  datatype Op =
    | Start(c: nat, identity: Identity)
    | Post(c: nat, at: int)
    | Poll(c: nat)
    | GiveUp(c: nat)
    | Drain(c: nat, at: int)
    | PostAny(envelope: Envelope, at: int)
    | Notify(target: string, at: int)
    | Pump(at: int)
    | Change(world: World)
    | Purge(cutoff: int)

  function HelloFrom(identity: Identity): Envelope {
    Envelope(Primary(identity), ANNOUNCE, Hello(identity))
  }

  function Notice(target: string): Envelope {
    Envelope("invalidator", INVALIDATE, Stale(target))
  }

  function Consuming(world: World, envelopes: seq<Envelope>): seq<Consumed> {
    seq(|envelopes|, i requires 0 <= i < |envelopes| => Consumed(world, envelopes[i]))
  }

  /** The manifest that answers an envelope, if one does. */
  function IssueOf(world: World, e: Envelope): seq<Issue> {
    if e.payload.Hello? && ResolveAnnounce(world, e.payload.identity).Ok?
    then [Issue(world, e.payload.identity, ResolveAnnounce(world, e.payload.identity).value)]
    else []
  }

  function Issued(world: World, envelopes: seq<Envelope>): seq<Issue> {
    if envelopes == [] then []
    else Issued(world, envelopes[..|envelopes| - 1]) + IssueOf(world, envelopes[|envelopes| - 1])
  }

  function Pumped(y: Sys, at: int): Sys {
    var envelopes := UnreadIn(y.st, ANNOUNCE);
    var batch := HandleAll(y.world, y.members, envelopes);
    OneReplyEach(y.world, y.members, envelopes);
    var n := |batch.replies|;
    y.(st := Posted(M.Fetched(y.st, ANNOUNCE), EVENTS, batch.replies, at),
       members := batch.members,
       issues := y.issues + Issued(y.world, envelopes[..n]),
       consumed := y.consumed + Consuming(y.world, envelopes),
       answered := y.answered + Consuming(y.world, envelopes[..n]),
       replied := y.replied + batch.replies,
       stopped := y.stopped + if n < |envelopes| then [Consumed(y.world, envelopes[n])] else [])
  }

  function Polled(y: Sys, c: nat): Sys
    requires c in y.clients
  {
    var client := y.clients[c];
    var outcome := Scan(UnreadIn(y.st, EVENTS), Primary(client.identity));
    y.(st := M.Fetched(y.st, EVENTS),
       clients := y.clients[c := client.(
         manifest := if outcome.Got? then Some(outcome.manifest) else client.manifest,
         waiting := outcome.Waiting?)])
  }

  function Step(y: Sys, op: Op): Sys {
    match op
    case Start(c, identity) => if c in y.clients then y else y.(clients := y.clients[c := Client(identity, None, false)])
    case Post(c, at) =>
      if c !in y.clients || y.clients[c].waiting then y
      else y.(st := M.WithMessage(y.st, ANNOUNCE, Stamped(HelloFrom(y.clients[c].identity), at)),
              clients := y.clients[c := y.clients[c].(waiting := true)])
    case Poll(c) => if c in y.clients && y.clients[c].waiting then Polled(y, c) else y
    case GiveUp(c) => if c in y.clients then y.(clients := y.clients[c := y.clients[c].(waiting := false)]) else y
    case Drain(c, at) =>
      if c !in y.clients || y.clients[c].waiting then y
      else
        var drained := y.(st := M.Fetched(y.st, INVALIDATE));
        if !AnyConcerns(UnreadIn(y.st, INVALIDATE), y.clients[c].identity.agentId) then drained
        else drained.(st := M.WithMessage(drained.st, ANNOUNCE, Stamped(HelloFrom(y.clients[c].identity), at)),
                      clients := y.clients[c := y.clients[c].(waiting := true)])
    case PostAny(e, at) => y.(st := M.WithMessage(y.st, ANNOUNCE, Stamped(e, at)))
    case Notify(target, at) => y.(st := M.WithMessage(y.st, INVALIDATE, Stamped(Notice(target), at)))
    case Pump(at) => Pumped(y, at)
    case Change(world) => y.(world := world)
    case Purge(cutoff) => y.(st := M.PurgedStore(y.st, cutoff))
  }

  function Init(world: World): Sys {
    Sys(M.Store(map[], map[]), world, map[Channels.SHARED := []], map[], [], [], [], [], [])
  }

  function Run(world: World, ops: seq<Op>): Sys {
    if ops == [] then Init(world) else Step(Run(world, ops[..|ops| - 1]), ops[|ops| - 1])
  }

  // ---------- Manifest safety ----------

  /** The manifest was issued to the mailbox. */
  ghost predicate IssuedTo(issues: seq<Issue>, m: Manifest, mailbox: string) {
    exists i :: 0 <= i < |issues| && issues[i].manifest == m && Primary(issues[i].identity) == mailbox
  }

  predicate Genuine(issue: Issue) {
    ResolveAnnounce(issue.world, issue.identity) == Ok(issue.manifest)
  }

  ghost predicate Safe(y: Sys) {
    && (forall i :: 0 <= i < |y.issues| ==> Genuine(y.issues[i]))
    && (forall x :: x in M.BoxOf(y.st, EVENTS).msgs && x.body.payload.ManifestReply? ==>
          IssuedTo(y.issues, x.body.payload.manifest, x.body.to))
    && (forall c :: c in y.clients && y.clients[c].manifest.Some? ==>
          IssuedTo(y.issues, y.clients[c].manifest.value, Primary(y.clients[c].identity)))
  }

  lemma IssuedLater(issues: seq<Issue>, more: seq<Issue>, m: Manifest, mailbox: string)
    requires IssuedTo(issues, m, mailbox)
    ensures IssuedTo(issues + more, m, mailbox)
  {
    var i :| 0 <= i < |issues| && issues[i].manifest == m && Primary(issues[i].identity) == mailbox;
    assert (issues + more)[i] == issues[i];
  }

  lemma {:induction false} IssuedGenuine(world: World, envelopes: seq<Envelope>)
    ensures forall i :: 0 <= i < |Issued(world, envelopes)| ==> Genuine(Issued(world, envelopes)[i])
  {
    hide ResolveAnnounce;
    if envelopes != [] { IssuedGenuine(world, envelopes[..|envelopes| - 1]); }
  }

  lemma {:induction false} RepliesAreIssued(world: World, envelopes: seq<Envelope>, i: nat)
    requires i < |envelopes| && ReplyTo(world, envelopes[i]).payload.ManifestReply?
    ensures IssuedTo(Issued(world, envelopes), ReplyTo(world, envelopes[i]).payload.manifest, ReplyTo(world, envelopes[i]).to)
  {
    hide ResolveAnnounce, Primary, IssuedTo;
    var n := |envelopes| - 1;
    var m, to := ReplyTo(world, envelopes[i]).payload.manifest, ReplyTo(world, envelopes[i]).to;
    var before, last := Issued(world, envelopes[..n]), IssueOf(world, envelopes[n]);
    if i == n {
      LastIsIssued(world, envelopes[n]);
      IssuedEarlier(before, last, m, to);
    } else {
      RepliesAreIssued(world, envelopes[..n], i);
      IssuedLater(before, last, m, to);
    }
  }

  lemma LastIsIssued(world: World, e: Envelope)
    requires ReplyTo(world, e).payload.ManifestReply?
    ensures IssuedTo(IssueOf(world, e), ReplyTo(world, e).payload.manifest, ReplyTo(world, e).to)
  {
    hide ResolveAnnounce, Primary;
    assert IssueOf(world, e)[0].manifest == ReplyTo(world, e).payload.manifest;
  }

  lemma {:induction false} UnreadFromBox(view: seq<M.Flagged<Envelope>>, e: Envelope)
    requires e in M.Unread(view)
    ensures exists i :: 0 <= i < |view| && view[i].msg.body == e
  {
    var n := |view| - 1;
    if e in M.Unread(view[..n]) {
      UnreadFromBox(view[..n], e);
      var i :| 0 <= i < n && view[..n][i].msg.body == e;
      assert view[i].msg.body == e;
    } else {
      assert view[n].msg.body == e;
    }
  }

  lemma UnreadStored(st: Store, b: string, e: Envelope)
    requires e in UnreadIn(st, b)
    ensures exists x :: x in M.BoxOf(st, b).msgs && x.body == e
  {
    var view := M.View(M.BoxOf(st, b));
    UnreadFromBox(view, e);
    var i :| 0 <= i < |view| && view[i].msg.body == e;
    assert M.BoxOf(st, b).msgs[i].body == e;
  }

  lemma OneMoreMessage(st: Store, b: string, m: M.Message<Envelope>, other: string)
    ensures M.BoxOf(M.WithMessage(st, b, m), b) == M.Appended(M.BoxOf(st, b), m)
    ensures other != b ==> M.BoxOf(M.WithMessage(st, b, m), other) == M.BoxOf(st, other)
  {}

  /** Posting appends to the one mailbox, in order, and leaves the others alone. */
  lemma {:induction false} PostedAppends(st: Store, b: string, envelopes: seq<Envelope>, at: int, other: string)
    ensures
      var before, after := M.BoxOf(st, b), M.BoxOf(Posted(st, b, envelopes, at), b);
      && after.seen == before.seen
      && |after.msgs| == |before.msgs| + |envelopes|
      && (forall i :: 0 <= i < |before.msgs| ==> after.msgs[i] == before.msgs[i])
      && (forall i :: |before.msgs| <= i < |after.msgs| ==> after.msgs[i] == Stamped(envelopes[i - |before.msgs|], at))
    ensures other != b ==> M.BoxOf(Posted(st, b, envelopes, at), other) == M.BoxOf(st, other)
  {
    hide M.BoxOf, M.WithMessage;
    if envelopes != [] {
      var n := |envelopes| - 1;
      PostedAppends(st, b, envelopes[..n], at, other);
      OneMoreMessage(Posted(st, b, envelopes[..n], at), b, Stamped(envelopes[n], at), other);
    }
  }

  lemma PurgedMessages(st: Store, cutoff: int, b: string, x: M.Message<Envelope>)
    requires x in M.BoxOf(M.PurgedStore(st, cutoff), b).msgs
    ensures x in M.BoxOf(st, b).msgs
  {
    hide M.Purged, M.Recent, M.Expired;
    if b in st.boxes {
      var box, after := M.BoxOf(st, b), M.Purged(M.BoxOf(st, b), cutoff);
      M.PurgeRefinesFilter(box, cutoff);
      var i :| 0 <= i < |after.msgs| && after.msgs[i] == x;
      var f := M.View(after)[i];
      assert f in M.Recent(M.View(box), cutoff);
      M.RecentMember(M.View(box), cutoff, f);
      var j :| 0 <= j < |M.View(box)| && M.View(box)[j] == f;
      assert box.msgs[j] == x;
    }
  }

  /** What a pump leaves behind: the answers come after the old messages, and the issues of the
    * answered announces after the old ones. */
  lemma PumpAdds(y: Sys, at: int) returns (replies: seq<Envelope>, answered: seq<Envelope>)
    ensures
      var z, before := Step(y, Pump(at)), M.BoxOf(y.st, EVENTS).msgs;
      var after := M.BoxOf(z.st, EVENTS).msgs;
      && |answered| == |replies| && (forall i :: 0 <= i < |replies| ==> replies[i] == ReplyTo(y.world, answered[i]))
      && z.issues == y.issues + Issued(y.world, answered) && z.clients == y.clients
      && |after| == |before| + |replies| && after[..|before|] == before
      && forall i :: 0 <= i < |replies| ==> after[|before| + i].body == replies[i]
  {
    hide M.Fetched, M.BoxOf, HandleAll, ReplyTo, Issued, Posted, UnreadIn, Stamped, Answerable, Consuming;
    var envelopes := UnreadIn(y.st, ANNOUNCE);
    var batch := HandleAll(y.world, y.members, envelopes);
    OneReplyEach(y.world, y.members, envelopes);
    FetchKeepsMessages(y.st, ANNOUNCE, EVENTS);
    PostedBehind(M.Fetched(y.st, ANNOUNCE), EVENTS, batch.replies, at);
    replies, answered := batch.replies, envelopes[..|batch.replies|];
  }

  lemma PostedBehind(st: Store, b: string, envelopes: seq<Envelope>, at: int)
    ensures
      var before, after := M.BoxOf(st, b).msgs, M.BoxOf(Posted(st, b, envelopes, at), b).msgs;
      && |after| == |before| + |envelopes| && after[..|before|] == before
      && forall i :: 0 <= i < |envelopes| ==> after[|before| + i].body == envelopes[i]
  {
    hide M.BoxOf, Posted;
    PostedAppends(st, b, envelopes, at, b);
  }

  lemma PumpSafe(y: Sys, at: int)
    requires Safe(y)
    ensures Safe(Step(y, Pump(at)))
  {
    hide M.BoxOf, ReplyTo, Issued, Genuine, IssuedTo, Step;
    var z, msgs := Step(y, Pump(at)), M.BoxOf(y.st, EVENTS).msgs;
    var replies, answered := PumpAdds(y, at);
    var added := Issued(y.world, answered);
    IssuedGenuine(y.world, answered);
    forall x | x in M.BoxOf(z.st, EVENTS).msgs && x.body.payload.ManifestReply?
      ensures IssuedTo(z.issues, x.body.payload.manifest, x.body.to)
    {
      var all := M.BoxOf(z.st, EVENTS).msgs;
      var k :| 0 <= k < |all| && all[k] == x;
      if k < |msgs| {
        assert x == all[..|msgs|][k];
        IssuedLater(y.issues, added, x.body.payload.manifest, x.body.to);
      } else {
        assert x.body == replies[k - |msgs|];
        RepliesAreIssued(y.world, answered, k - |msgs|);
        IssuedEarlier(y.issues, added, x.body.payload.manifest, x.body.to);
      }
    }
    forall c | c in z.clients && z.clients[c].manifest.Some?
      ensures IssuedTo(z.issues, z.clients[c].manifest.value, Primary(z.clients[c].identity))
    {
      IssuedLater(y.issues, added, z.clients[c].manifest.value, Primary(z.clients[c].identity));
    }
  }

  lemma FetchKeepsMessages(st: Store, b: string, other: string)
    ensures M.BoxOf(M.Fetched(st, b), other).msgs == M.BoxOf(st, other).msgs
  {}

  lemma IssuedEarlier(before: seq<Issue>, issues: seq<Issue>, m: Manifest, mailbox: string)
    requires IssuedTo(issues, m, mailbox)
    ensures IssuedTo(before + issues, m, mailbox)
  {
    var i :| 0 <= i < |issues| && issues[i].manifest == m && Primary(issues[i].identity) == mailbox;
    assert (before + issues)[|before| + i] == issues[i];
  }

  lemma PollSafe(y: Sys, c: nat)
    requires Safe(y) && c in y.clients
    ensures Safe(Polled(y, c))
  {
    hide Genuine, IssuedTo, M.BoxOf, M.Fetched, UnreadIn, Scan, Primary;
    var z := Polled(y, c);
    var mailbox := Primary(y.clients[c].identity);
    var replies := UnreadIn(y.st, EVENTS);
    FetchKeepsMessages(y.st, EVENTS, EVENTS);
    if Scan(replies, mailbox).Got? {
      ScanFinds(replies, mailbox);
      var e :| e in replies && e.to == mailbox && e.payload == ManifestReply(Scan(replies, mailbox).manifest);
      UnreadStored(y.st, EVENTS, e);
      var x :| x in M.BoxOf(y.st, EVENTS).msgs && x.body == e;
      assert IssuedTo(y.issues, x.body.payload.manifest, x.body.to);
    }
  }

  lemma SameEventsSafe(y: Sys, z: Sys)
    requires Safe(y) && z.issues == y.issues
    requires forall x :: x in M.BoxOf(z.st, EVENTS).msgs ==> x in M.BoxOf(y.st, EVENTS).msgs
    requires forall c :: c in z.clients && z.clients[c].manifest.Some? ==>
      c in y.clients && y.clients[c].identity == z.clients[c].identity && y.clients[c].manifest == z.clients[c].manifest
    ensures Safe(z)
  {
    hide Genuine, IssuedTo, M.BoxOf;
  }

  lemma StepSafe(y: Sys, op: Op)
    requires Safe(y)
    ensures Safe(Step(y, op))
  {
    match op
    case Pump(at) => PumpSafe(y, at);
    case Poll(c) => if c in y.clients && y.clients[c].waiting { PollSafe(y, c); }
    case Purge(cutoff) => PurgeSafe(y, cutoff);
    case _ => QuietSafe(y, op);
  }

  lemma PurgeSafe(y: Sys, cutoff: int)
    requires Safe(y)
    ensures Safe(Step(y, Purge(cutoff)))
  {
    hide Safe, M.BoxOf, M.PurgedStore;
    forall x | x in M.BoxOf(M.PurgedStore(y.st, cutoff), EVENTS).msgs ensures x in M.BoxOf(y.st, EVENTS).msgs {
      PurgedMessages(y.st, cutoff, EVENTS, x);
    }
    SameEventsSafe(y, Step(y, Purge(cutoff)));
  }

  /** The other steps leave the events mailbox and the cached manifests alone. */
  lemma QuietSafe(y: Sys, op: Op)
    requires Safe(y) && !op.Pump? && !op.Poll? && !op.Purge?
    ensures Safe(Step(y, op))
  {
    hide Safe, UnreadIn, AnyConcerns, HelloFrom, Stamped;
    SameEventsSafe(y, Step(y, op));
  }

  lemma {:induction false} AlwaysSafe(world: World, ops: seq<Op>)
    ensures Safe(Run(world, ops))
  {
    hide Step;
    if ops != [] {
      AlwaysSafe(world, ops[..|ops| - 1]);
      StepSafe(Run(world, ops[..|ops| - 1]), ops[|ops| - 1]);
    }
  }

  /** End to end, for any number of clients: a cached manifest came from a reply to the
    * client's own primary mailbox and carries that address, and its tools are exactly
    * those that the profile it was made from allowed and that were online then. */
  lemma CachedManifestIsSafe(world: World, ops: seq<Op>, c: nat)
    requires c in Run(world, ops).clients && Run(world, ops).clients[c].manifest.Some?
    ensures
      var client, m := Run(world, ops).clients[c], Run(world, ops).clients[c].manifest.value;
      exists i :: 0 <= i < |Run(world, ops).issues| &&
        var issue := Run(world, ops).issues[i];
        var profile := Profiles.Load(issue.world.dir, issue.identity.agentId, []);
        && issue.manifest == m && Primary(issue.identity) == Primary(client.identity)
        && m.primaryAddress == SCHEME + Primary(client.identity)
        && profile.Ok?
        && forall id :: id in m.tools <==> Allows(profile.value, id) && IsOnline(issue.world, id)
  {
    AlwaysSafe(world, ops);
    var y := Run(world, ops);
    var i :| 0 <= i < |y.issues| && y.issues[i].manifest == y.clients[c].manifest.value
      && Primary(y.issues[i].identity) == Primary(y.clients[c].identity);
    assert Genuine(y.issues[i]);
    ManifestIsSound(y.issues[i].world, y.issues[i].identity);
  }

  // ---------- One reply for each announce ----------

  predicate NoPurge(ops: seq<Op>) {
    forall i :: 0 <= i < |ops| ==> !ops[i].Purge?
  }

  /** The first announces are read and are those consumed, in order; the events mailbox
    * holds exactly the replies, in order. */
  ghost predicate Accounted(y: Sys) {
    var asked, answers := M.BoxOf(y.st, ANNOUNCE), M.BoxOf(y.st, EVENTS).msgs;
    && |y.consumed| <= |asked.msgs| && asked.seen == M.UpTo(|y.consumed|)
    && (forall i :: 0 <= i < |y.consumed| ==> y.consumed[i].envelope == asked.msgs[i].body)
    && |answers| == |y.replied|
    && (forall i :: 0 <= i < |answers| ==> answers[i].body == y.replied[i])
  }

  predicate CanAnswer(x: Consumed) {
    Answerable(x.world, x.envelope)
  }

  predicate AllAnswerable(xs: seq<Consumed>) {
    forall x :: x in xs ==> CanAnswer(x)
  }

  /** The replies answer the answered announces one by one, and all consumed announces are
    * answered exactly when all could be. */
  ghost predicate Answered(y: Sys) {
    && |y.replied| == |y.answered| <= |y.consumed|
    && (forall i :: 0 <= i < |y.replied| ==> y.replied[i] == ReplyTo(y.answered[i].world, y.answered[i].envelope))
    && (if AllAnswerable(y.consumed) then y.answered == y.consumed else |y.answered| < |y.consumed|)
    && (y.stopped == [] <==> AllAnswerable(y.consumed))
    && (forall x :: x in y.stopped ==> x in y.consumed && !CanAnswer(x))
  }

  lemma {:induction false} UnreadSuffix(view: seq<M.Flagged<Envelope>>, k: nat)
    requires k <= |view| && forall i :: 0 <= i < |view| ==> (view[i].read <==> i < k)
    ensures |M.Unread(view)| == |view| - k
    ensures forall i :: 0 <= i < |view| - k ==> M.Unread(view)[i] == view[k + i].msg.body
  {
    if k == |view| {
      AllReadNone(view);
    } else {
      var n := |view| - 1;
      UnreadSuffix(view[..n], k);
      var front, all := M.Unread(view[..n]), M.Unread(view);
      assert all == front + [view[n].msg.body];
      hide M.Unread;
      forall i | 0 <= i < |view| - k ensures all[i] == view[k + i].msg.body {
        if i < |front| { assert view[..n][k + i] == view[k + i]; }
      }
    }
  }

  lemma {:induction false} AllReadNone(view: seq<M.Flagged<Envelope>>)
    requires forall i :: 0 <= i < |view| ==> view[i].read
    ensures M.Unread(view) == []
  {
    if view != [] { AllReadNone(view[..|view| - 1]); }
  }

  lemma UnreadAnnounces(y: Sys)
    requires Accounted(y)
    ensures
      var asked, unread := M.BoxOf(y.st, ANNOUNCE).msgs, UnreadIn(y.st, ANNOUNCE);
      && |unread| == |asked| - |y.consumed|
      && forall i :: 0 <= i < |unread| ==> unread[i] == asked[|y.consumed| + i].body
  {
    var view := M.View(M.BoxOf(y.st, ANNOUNCE));
    UnreadSuffix(view, |y.consumed|);
  }

  lemma PumpAccounted(y: Sys, at: int)
    requires Accounted(y)
    ensures Accounted(Pumped(y, at)) && |Pumped(y, at).consumed| == |M.BoxOf(y.st, ANNOUNCE).msgs|
    ensures M.BoxOf(Pumped(y, at).st, ANNOUNCE).msgs == M.BoxOf(y.st, ANNOUNCE).msgs
  {
    hide HandleAll, Posted, Issued, M.View, M.Unread;
    var batch := HandleAll(y.world, y.members, UnreadIn(y.st, ANNOUNCE));
    UnreadAnnounces(y);
    PostedAppends(M.Fetched(y.st, ANNOUNCE), EVENTS, batch.replies, at, ANNOUNCE);
  }

  lemma PumpAnswered(y: Sys, at: int)
    requires Answered(y)
    ensures Answered(Pumped(y, at))
  {
    hide HandleAll, ReplyTo, Answerable, Issued, Posted, UnreadIn, AllAnswerable;
    var envelopes, z := UnreadIn(y.st, ANNOUNCE), Pumped(y, at);
    OneReplyEach(y.world, y.members, envelopes);
    var taken := Consuming(y.world, envelopes);
    var n := |HandleAll(y.world, y.members, envelopes).replies|;
    ConsumingAnswerable(y.world, envelopes);
    AnswerableTogether(y.consumed, taken);
    if n < |envelopes| {
      assert taken[n] == Consumed(y.world, envelopes[n]);
    } else {
      assert envelopes[..n] == envelopes;
    }
  }

  lemma ConsumingAnswerable(world: World, envelopes: seq<Envelope>)
    ensures AllAnswerable(Consuming(world, envelopes)) <==> forall e :: e in envelopes ==> Answerable(world, e)
  {
    hide Answerable;
    forall e | e in envelopes ensures Consumed(world, e) in Consuming(world, envelopes) {
      var i :| 0 <= i < |envelopes| && envelopes[i] == e;
      assert Consuming(world, envelopes)[i] == Consumed(world, e);
    }
  }

  lemma AnswerableTogether(xs: seq<Consumed>, ys: seq<Consumed>)
    ensures AllAnswerable(xs + ys) <==> AllAnswerable(xs) && AllAnswerable(ys)
  {
    hide CanAnswer;
  }

  lemma {:induction false} AlwaysAnswered(world: World, ops: seq<Op>)
    ensures Answered(Run(world, ops))
    ensures NoPurge(ops) ==> Accounted(Run(world, ops))
  {
    hide Answered, Accounted, Pumped;
    if ops == [] {
      StartAnswered(world);
    } else {
      var before, op := Run(world, ops[..|ops| - 1]), ops[|ops| - 1];
      AlwaysAnswered(world, ops[..|ops| - 1]);
      if op.Pump? { PumpAnswered(before, op.at); } else { StepAnswered(before, op); }
      if NoPurge(ops) {
        if op.Pump? { PumpAccounted(before, op.at); } else { StepAccounted(before, op); }
      }
    }
  }

  lemma StartAnswered(world: World)
    ensures Answered(Init(world)) && Accounted(Init(world))
  {}

  lemma StepAnswered(y: Sys, op: Op)
    requires Answered(y) && !op.Pump?
    ensures Answered(Step(y, op))
  {
    hide AllAnswerable, ReplyTo, UnreadIn, AnyConcerns;
  }

  lemma StepAccounted(y: Sys, op: Op)
    requires Accounted(y) && !op.Pump? && !op.Purge?
    ensures Accounted(Step(y, op))
  {
    hide UnreadIn, AnyConcerns, Scan, Accounted, HelloFrom, Stamped;
    GrowingAccounted(y, Step(y, op));
  }

  lemma GrowingAccounted(y: Sys, z: Sys)
    requires Accounted(y) && z.consumed == y.consumed && z.replied == y.replied
    requires M.BoxOf(z.st, ANNOUNCE).seen == M.BoxOf(y.st, ANNOUNCE).seen
    requires M.BoxOf(y.st, ANNOUNCE).msgs <= M.BoxOf(z.st, ANNOUNCE).msgs
    requires M.BoxOf(z.st, EVENTS).msgs == M.BoxOf(y.st, EVENTS).msgs
    ensures Accounted(z)
  {
    hide M.BoxOf, M.UpTo;
  }

  /** Without purges, a pump leaves one reply for each announce ever posted, in the order
    * of posting and to the right address, exactly when the listener could answer each of
    * them in the world it was handled in; otherwise some announce has none. */
  lemma EveryAnnounceAnsweredOnce(world: World, ops: seq<Op>, at: int)
    requires NoPurge(ops)
    ensures
      var y := Run(world, ops + [Pump(at)]);
      var asked, answers := M.BoxOf(y.st, ANNOUNCE).msgs, M.BoxOf(y.st, EVENTS).msgs;
      && |y.consumed| == |asked| && (forall i :: 0 <= i < |asked| ==> y.consumed[i].envelope == asked[i].body)
      && |answers| <= |asked|
      && (|answers| == |asked| <==> AllAnswerable(y.consumed))
      && (|answers| == |asked| ==>
            forall i :: 0 <= i < |asked| ==> answers[i].body == ReplyTo(y.consumed[i].world, asked[i].body))
  {
    hide Answered, Accounted, Pumped, AllAnswerable, ReplyTo, M.BoxOf, Run;
    var y := Run(world, ops);
    assert Run(world, ops + [Pump(at)]) == Pumped(y, at) by { RunOneMore(world, ops, Pump(at)); }
    AlwaysAnswered(world, ops);
    PumpAccounted(y, at);
    PumpAnswered(y, at);
    AccountedAnswers(Pumped(y, at));
  }

  /** Over any run, purges included: the replies answer the answered announces one by one
    * and to the right address, whatever is in the events mailbox is one of them, and
    * every consumed announce is answered exactly when all of them could be. */
  lemma RepliesAnswerAnnounces(world: World, ops: seq<Op>)
    ensures
      var y := Run(world, ops);
      && |y.replied| == |y.answered| <= |y.consumed|
      && (forall i :: 0 <= i < |y.replied| ==> y.replied[i] == ReplyTo(y.answered[i].world, y.answered[i].envelope))
      && (forall x :: x in M.BoxOf(y.st, EVENTS).msgs ==> x.body in y.replied)
      && (y.answered == y.consumed <==> AllAnswerable(y.consumed))
      && (|y.answered| < |y.consumed| <==> !AllAnswerable(y.consumed))
  {
    hide Run, AllAnswerable, ReplyTo, M.BoxOf;
    AlwaysAnswered(world, ops);
    EventsAreReplies(world, ops);
  }

  ghost predicate OnlyReplies(y: Sys) {
    forall x :: x in M.BoxOf(y.st, EVENTS).msgs ==> x.body in y.replied
  }

  lemma {:induction false} EventsAreReplies(world: World, ops: seq<Op>)
    ensures OnlyReplies(Run(world, ops))
  {
    hide OnlyReplies, Step;
    if ops == [] {
      StartOnlyReplies(world);
    } else {
      EventsAreReplies(world, ops[..|ops| - 1]);
      StepOnlyReplies(Run(world, ops[..|ops| - 1]), ops[|ops| - 1]);
    }
  }

  lemma StartOnlyReplies(world: World)
    ensures OnlyReplies(Init(world))
  {}

  lemma StepOnlyReplies(y: Sys, op: Op)
    requires OnlyReplies(y)
    ensures OnlyReplies(Step(y, op))
  {
    hide UnreadIn, AnyConcerns, HelloFrom, Stamped, HandleAll, Posted, M.PurgedStore, Issued, Scan;
    if op.Pump? {
      PumpOnlyReplies(y, op.at);
    } else if op.Purge? {
      forall x | x in M.BoxOf(Step(y, op).st, EVENTS).msgs ensures x.body in y.replied { PurgedMessages(y.st, op.cutoff, EVENTS, x); }
    } else {
      assert M.BoxOf(Step(y, op).st, EVENTS).msgs == M.BoxOf(y.st, EVENTS).msgs;
    }
  }

  lemma PumpOnlyReplies(y: Sys, at: int)
    requires OnlyReplies(y)
    ensures OnlyReplies(Pumped(y, at))
  {
    hide UnreadIn, HandleAll, Posted, Issued, M.Fetched, M.BoxOf;
    var replies := HandleAll(y.world, y.members, UnreadIn(y.st, ANNOUNCE)).replies;
    var before, after := M.BoxOf(y.st, EVENTS).msgs, M.BoxOf(Pumped(y, at).st, EVENTS).msgs;
    FetchKeepsMessages(y.st, ANNOUNCE, EVENTS);
    PostedAppends(M.Fetched(y.st, ANNOUNCE), EVENTS, replies, at, EVENTS);
    forall x | x in after ensures x.body in y.replied + replies {
      var i :| 0 <= i < |after| && after[i] == x;
      if i < |before| { assert x == before[i]; } else { assert x.body == replies[i - |before|]; }
    }
  }

  lemma RunOneMore(world: World, ops: seq<Op>, op: Op)
    ensures Run(world, ops + [op]) == Step(Run(world, ops), op)
  {
    hide Step;
    assert (ops + [op])[..|ops|] == ops;
  }

  lemma AccountedAnswers(y: Sys)
    requires Accounted(y) && Answered(y) && |y.consumed| == |M.BoxOf(y.st, ANNOUNCE).msgs|
    ensures
      var asked, answers := M.BoxOf(y.st, ANNOUNCE).msgs, M.BoxOf(y.st, EVENTS).msgs;
      && |y.consumed| == |asked| && (forall i :: 0 <= i < |asked| ==> y.consumed[i].envelope == asked[i].body)
      && |answers| <= |asked|
      && (|answers| == |asked| <==> AllAnswerable(y.consumed))
      && (|answers| == |asked| ==>
            forall i :: 0 <= i < |asked| ==> answers[i].body == ReplyTo(y.consumed[i].world, asked[i].body))
  {
    hide AllAnswerable, ReplyTo, M.BoxOf;
  }

  // ---------- Channel membership ----------

  /** A manifest issued to the mailbox lists the channel. */
  ghost predicate Subscribed(issues: seq<Issue>, channel: Value, mailbox: string) {
    exists i :: 0 <= i < |issues| && Channels.Lists(issues[i].manifest.subscriptions, channel) && Primary(issues[i].identity) == mailbox
  }

  /** Handling the announce registers the mailbox in the channel. */
  predicate Registers(x: Consumed, channel: Value, mailbox: string) {
    && x.envelope.payload.Hello? && ResolveAnnounce(x.world, x.envelope.payload.identity).Ok?
    && Channels.Lists(Hashables(ResolveAnnounce(x.world, x.envelope.payload.identity).value.subscriptions), channel)
    && mailbox == Primary(x.envelope.payload.identity)
  }

  /** A pump raised at such an announce, after it had registered the mailbox. */
  ghost predicate LeftBehind(stopped: seq<Consumed>, channel: Value, mailbox: string) {
    exists i :: 0 <= i < |stopped| && Registers(stopped[i], channel, mailbox)
  }

  ghost predicate Joined(y: Sys) {
    && Channels.AllDistinct(y.members)
    && forall ch, mb :: mb in Channels.MembersOf(y.members, ch) <==> Subscribed(y.issues, ch, mb) || LeftBehind(y.stopped, ch, mb)
  }

  lemma {:induction false} RegisterAllMembers(members: Channels.Members, subs: seq<Value>, mailbox: string)
    requires Channels.AllDistinct(members)
    ensures Channels.AllDistinct(RegisterAll(members, subs, mailbox))
    ensures forall ch, mb :: mb in Channels.MembersOf(RegisterAll(members, subs, mailbox), ch) <==>
      mb in Channels.MembersOf(members, ch) || (Channels.Lists(subs, ch) && mb == mailbox)
  {
    hide Channels.AllDistinct, Channels.MembersOf, Channels.WithMember;
    if subs != [] {
      var n := |subs| - 1;
      RegisterAllMembers(members, subs[..n], mailbox);
      Channels.WithMemberDistinct(RegisterAll(members, subs[..n], mailbox), subs[n], mailbox);
      assert subs == subs[..n] + [subs[n]];
    }
  }

  lemma SubscribedMore(issues: seq<Issue>, more: seq<Issue>, channel: Value, mailbox: string)
    ensures Subscribed(issues + more, channel, mailbox) <==>
      Subscribed(issues, channel, mailbox) || Subscribed(more, channel, mailbox)
  {
    var all := issues + more;
    if Subscribed(issues, channel, mailbox) {
      var i :| 0 <= i < |issues| && Channels.Lists(issues[i].manifest.subscriptions, channel) && Primary(issues[i].identity) == mailbox;
      assert all[i] == issues[i];
    }
    if Subscribed(more, channel, mailbox) {
      var i :| 0 <= i < |more| && Channels.Lists(more[i].manifest.subscriptions, channel) && Primary(more[i].identity) == mailbox;
      assert all[|issues| + i] == more[i];
    }
  }

  lemma SubscribedIssue(world: World, e: Envelope, channel: Value, mailbox: string)
    ensures Subscribed(IssueOf(world, e), channel, mailbox) <==>
      && e.payload.Hello? && ResolveAnnounce(world, e.payload.identity).Ok?
      && Channels.Lists(ResolveAnnounce(world, e.payload.identity).value.subscriptions, channel) && Primary(e.payload.identity) == mailbox
  {
    hide ResolveAnnounce, Primary;
    var issues := IssueOf(world, e);
    if issues != [] { assert issues[0].manifest == ResolveAnnounce(world, e.payload.identity).value; }
  }

  lemma LeftBehindMore(stopped: seq<Consumed>, more: seq<Consumed>, channel: Value, mailbox: string)
    ensures LeftBehind(stopped + more, channel, mailbox) <==> LeftBehind(stopped, channel, mailbox) || LeftBehind(more, channel, mailbox)
  {
    hide Registers;
    var all := stopped + more;
    if LeftBehind(stopped, channel, mailbox) {
      var i :| 0 <= i < |stopped| && Registers(stopped[i], channel, mailbox);
      assert all[i] == stopped[i];
    }
    if LeftBehind(more, channel, mailbox) {
      var i :| 0 <= i < |more| && Registers(more[i], channel, mailbox);
      assert all[|stopped| + i] == more[i];
    }
  }

  lemma OneLeftBehind(x: Consumed, channel: Value, mailbox: string)
    ensures LeftBehind([x], channel, mailbox) <==> Registers(x, channel, mailbox)
  {
    hide Registers;
    assert [x][0] == x;
  }

  lemma OneEnvelopeMembers(world: World, members: Channels.Members, e: Envelope)
    requires Channels.AllDistinct(members)
    ensures
      var after := MembersAfter(world, members, e);
      && Channels.AllDistinct(after)
      && (forall ch, mb :: mb in Channels.MembersOf(after, ch) <==> mb in Channels.MembersOf(members, ch) || Registers(Consumed(world, e), ch, mb))
  {
    hide ResolveAnnounce, Primary, Channels.AllDistinct, Channels.MembersOf, RegisterAll, Hashables;
    if e.payload.Hello? && ResolveAnnounce(world, e.payload.identity).Ok? {
      RegisterAllMembers(members, Hashables(ResolveAnnounce(world, e.payload.identity).value.subscriptions), Primary(e.payload.identity));
    }
  }

  /** An announce that is answered registers exactly what its manifest lists. */
  lemma AnsweredRegisters(world: World, e: Envelope, channel: Value, mailbox: string)
    requires Answerable(world, e)
    ensures Registers(Consumed(world, e), channel, mailbox) <==> Subscribed(IssueOf(world, e), channel, mailbox)
  {
    hide ResolveAnnounce, Primary, Subscribed, IssueOf, WritableManifest;
    SubscribedIssue(world, e, channel, mailbox);
    if e.payload.Hello? && ResolveAnnounce(world, e.payload.identity).Ok? {
      HashablesAll(ResolveAnnounce(world, e.payload.identity).value.subscriptions);
    }
  }

  /** What a batch does to the members: the mailboxes of its issues join their channels,
    * and the announce at which it stops joins what it had come to. */
  ghost predicate BatchJoins(members: Channels.Members, batch: Batch, issued: seq<Issue>, left: seq<Consumed>) {
    && Channels.AllDistinct(batch.members)
    && forall ch, mb :: mb in Channels.MembersOf(batch.members, ch) <==>
        mb in Channels.MembersOf(members, ch) || Subscribed(issued, ch, mb) || LeftBehind(left, ch, mb)
  }

  function LeftOf(world: World, envelopes: seq<Envelope>, n: nat): seq<Consumed> {
    if n < |envelopes| then [Consumed(world, envelopes[n])] else []
  }

  lemma {:induction false} BatchMembers(world: World, members: Channels.Members, envelopes: seq<Envelope>)
    requires Channels.AllDistinct(members)
    ensures
      var batch := HandleAll(world, members, envelopes);
      var n := |batch.replies|;
      n <= |envelopes| && BatchJoins(members, batch, Issued(world, envelopes[..n]), LeftOf(world, envelopes, n))
  {
    hide BatchJoins, MembersAfter, ReplyTo, Answerable, IssueOf, Channels.AllDistinct;
    if envelopes == [] {
      NoneJoin(members);
    } else {
      var n := |envelopes| - 1;
      BatchMembers(world, members, envelopes[..n]);
      var before := HandleAll(world, members, envelopes[..n]);
      OneReplyEach(world, members, envelopes[..n]);
      assert envelopes[..n][..|before.replies|] == envelopes[..|before.replies|];
      if !before.raised {
        assert envelopes[..n + 1] == envelopes && envelopes[..n][..n] == envelopes[..n];
        OneMoreJoins(world, members, before, Issued(world, envelopes[..n]), envelopes[n]);
      }
    }
  }

  lemma NoneJoin(members: Channels.Members)
    requires Channels.AllDistinct(members)
    ensures BatchJoins(members, Batch([], members, false), [], [])
  {
    hide Channels.AllDistinct, Channels.MembersOf;
  }

  lemma OneMoreJoins(world: World, members: Channels.Members, before: Batch, issued: seq<Issue>, e: Envelope)
    requires BatchJoins(members, before, issued, []) && !before.raised
    ensures
      var after := MembersAfter(world, before.members, e);
      if Answerable(world, e)
      then BatchJoins(members, Batch(before.replies + [ReplyTo(world, e)], after, false), issued + IssueOf(world, e), [])
      else BatchJoins(members, Batch(before.replies, after, true), issued, [Consumed(world, e)])
  {
    hide MembersAfter, ReplyTo, Answerable, IssueOf, Channels.AllDistinct, Channels.MembersOf, Subscribed, Registers;
    OneEnvelopeMembers(world, before.members, e);
    forall ch, mb
      ensures Subscribed(issued + IssueOf(world, e), ch, mb) <==> Subscribed(issued, ch, mb) || Subscribed(IssueOf(world, e), ch, mb)
      ensures LeftBehind([Consumed(world, e)], ch, mb) <==> Registers(Consumed(world, e), ch, mb)
      ensures Answerable(world, e) ==> (Registers(Consumed(world, e), ch, mb) <==> Subscribed(IssueOf(world, e), ch, mb))
    {
      SubscribedMore(issued, IssueOf(world, e), ch, mb);
      OneLeftBehind(Consumed(world, e), ch, mb);
      if Answerable(world, e) { AnsweredRegisters(world, e, ch, mb); }
    }
  }

  lemma PumpJoined(y: Sys, at: int)
    requires Joined(y)
    ensures Joined(Pumped(y, at))
  {
    hide HandleAll, Issued, Posted, UnreadIn, Channels.AllDistinct, Channels.MembersOf, Subscribed, LeftBehind;
    var envelopes := UnreadIn(y.st, ANNOUNCE);
    BatchMembers(y.world, y.members, envelopes);
    var n := |HandleAll(y.world, y.members, envelopes).replies|;
    var issued, left := Issued(y.world, envelopes[..n]), LeftOf(y.world, envelopes, n);
    forall ch, mb
      ensures Subscribed(y.issues + issued, ch, mb) <==> Subscribed(y.issues, ch, mb) || Subscribed(issued, ch, mb)
      ensures LeftBehind(y.stopped + left, ch, mb) <==> LeftBehind(y.stopped, ch, mb) || LeftBehind(left, ch, mb)
    {
      SubscribedMore(y.issues, issued, ch, mb);
      LeftBehindMore(y.stopped, left, ch, mb);
    }
  }

  lemma {:induction false} AlwaysJoined(world: World, ops: seq<Op>)
    ensures Joined(Run(world, ops))
  {
    hide Joined, Step, Pumped;
    if ops == [] {
      StartJoined(world);
    } else {
      AlwaysJoined(world, ops[..|ops| - 1]);
      StepJoined(Run(world, ops[..|ops| - 1]), ops[|ops| - 1]);
    }
  }

  lemma StepJoined(y: Sys, op: Op)
    requires Joined(y)
    ensures Joined(Step(y, op))
  {
    hide Joined, Pumped, UnreadIn, AnyConcerns, Stamped;
    if op.Pump? {
      PumpJoined(y, op.at);
    } else {
      SameMembersJoined(y, Step(y, op));
    }
  }

  lemma SameMembersJoined(y: Sys, z: Sys)
    requires Joined(y) && z.members == y.members && z.issues == y.issues && z.stopped == y.stopped
    ensures Joined(z)
  {
    hide Channels.AllDistinct, Channels.MembersOf, Subscribed, LeftBehind;
  }

  lemma StartJoined(world: World)
    ensures Joined(Init(world))
  {}

  /** Over any run the member lists hold no duplicates, each mailbox that was issued a
    * manifest is in the shared channel and in each channel the manifest lists, and the only
    * other members were left behind by announces at which a pump raised. So everybody was
    * issued what he is a member of exactly when those announces left nobody else behind. */
  lemma MembershipFollowsAnnounces(world: World, ops: seq<Op>)
    ensures
      var y := Run(world, ops);
      && Channels.AllDistinct(y.members)
      && (forall i :: 0 <= i < |y.issues| ==>
            Primary(y.issues[i].identity) in Channels.MembersOf(y.members, Channels.SHARED))
      && (forall i, ch :: 0 <= i < |y.issues| && ch in y.issues[i].manifest.subscriptions ==>
            Primary(y.issues[i].identity) in Channels.MembersOf(y.members, ch))
      && (forall ch, mb :: mb in Channels.MembersOf(y.members, ch) <==>
            Subscribed(y.issues, ch, mb) || LeftBehind(y.stopped, ch, mb))
      && ((forall ch, mb :: mb in Channels.MembersOf(y.members, ch) ==> Subscribed(y.issues, ch, mb)) <==>
           forall ch, mb :: LeftBehind(y.stopped, ch, mb) ==> Subscribed(y.issues, ch, mb))
  {
    hide Run, Subscribed, LeftBehind, Channels.AllDistinct, Channels.MembersOf;
    AlwaysJoined(world, ops);
    AlwaysSafe(world, ops);
    JoinedIssues(Run(world, ops));
  }

  lemma JoinedIssues(y: Sys)
    requires Joined(y) && forall i :: 0 <= i < |y.issues| ==> Genuine(y.issues[i])
    ensures forall i :: 0 <= i < |y.issues| ==>
      Primary(y.issues[i].identity) in Channels.MembersOf(y.members, Channels.SHARED)
    ensures forall i, ch :: 0 <= i < |y.issues| && ch in y.issues[i].manifest.subscriptions ==>
      Primary(y.issues[i].identity) in Channels.MembersOf(y.members, ch)
  {}

  // ---------- An announce without a reply ----------

  /** A profile whose version YAML reads as a date. */
  const DATED := Dict(map["profile_version" := Stamp("2024-01-01"), "agent_type" := Str("agent")])
  const DATED_WORLD := World(map["a" := DATED], None, map[])

  lemma DatedManifest(identity: Identity)
    requires identity.agentId == "a"
    ensures
      var m := ResolveAnnounce(DATED_WORLD, identity);
      m.Ok? && m.value.subscriptions == [Channels.SHARED] && !WritableManifest(m.value)
  {}

  /** One manifest that cannot be written as JSON: its sender is in the shared channel
    * without a reply, and no announce behind it in the batch is answered either. */
  lemma UnwritableManifestLosesReplies(identity: Identity, rest: seq<Envelope>, members: Channels.Members)
    requires identity.agentId == "a" && Channels.AllDistinct(members)
    ensures
      var batch := HandleAll(DATED_WORLD, members, [HelloFrom(identity)] + rest);
      && batch.raised && batch.replies == []
      && Primary(identity) in Channels.MembersOf(batch.members, Channels.SHARED)
  {
    var e := HelloFrom(identity);
    var envelopes := [e] + rest;
    DatedManifest(identity);
    hide ResolveAnnounce, WritableManifest, Primary, Channels.AllDistinct;
    assert envelopes[..1] == [e] && [e][..0] == [];
    assert HandleAll(DATED_WORLD, members, [e]) == Batch([], MembersAfter(DATED_WORLD, members, e), true);
    RaisedStays(DATED_WORLD, members, envelopes, 1);
    HashablesAll([Channels.SHARED]);
    RegisterAllMembers(members, [Channels.SHARED], Primary(identity));
  }
}
