/** What is there to read: the mailboxes of the announce protocol over whole runs, and so
  * which drain announces again and which poll finds a reply. */
module AnnounceReads {
  import opened Outcomes
  import opened Broker
  import opened Announce
  import opened AnnounceRuns
  import M = Mailbox

  // ---------- Unread messages ----------

  function UnreadMessages(view: seq<M.Flagged<Envelope>>): seq<M.Message<Envelope>> {
    if view == [] then []
    else
      var n := |view| - 1;
      UnreadMessages(view[..n]) + if view[n].read then [] else [view[n].msg]
  }

  function Bodies(ms: seq<M.Message<Envelope>>): seq<Envelope> {
    seq(|ms|, i requires 0 <= i < |ms| => ms[i].body)
  }

  /** The messages that a purge leaves. */
  function Surviving(ms: seq<M.Message<Envelope>>, cutoff: int): seq<M.Message<Envelope>> {
    if ms == [] then []
    else
      var n := |ms| - 1;
      Surviving(ms[..n], cutoff) + if M.Expired(ms[n], cutoff) then [] else [ms[n]]
  }

  lemma {:induction false} BodiesOfUnread(view: seq<M.Flagged<Envelope>>)
    ensures M.Unread(view) == Bodies(UnreadMessages(view))
  {
    if view != [] {
      var n := |view| - 1;
      BodiesOfUnread(view[..n]);
      if !view[n].read { BodiesSnoc(UnreadMessages(view[..n]), view[n].msg); }
    }
  }

  lemma BodiesSnoc(ms: seq<M.Message<Envelope>>, m: M.Message<Envelope>)
    ensures Bodies(ms + [m]) == Bodies(ms) + [m.body]
  {}

  lemma SurvivingSnoc(ms: seq<M.Message<Envelope>>, m: M.Message<Envelope>, cutoff: int)
    ensures Surviving(ms + [m], cutoff) == Surviving(ms, cutoff) + if M.Expired(m, cutoff) then [] else [m]
  {
    assert (ms + [m])[..|ms|] == ms;
  }

  lemma UnreadSnoc(view: seq<M.Flagged<Envelope>>, x: M.Flagged<Envelope>)
    ensures UnreadMessages(view + [x]) == UnreadMessages(view) + if x.read then [] else [x.msg]
  {
    assert (view + [x])[..|view|] == view;
  }

  /** Purging and picking the unread ones commute. */
  lemma {:induction false} SurvivingUnread(view: seq<M.Flagged<Envelope>>, cutoff: int)
    ensures UnreadMessages(M.Recent(view, cutoff)) == Surviving(UnreadMessages(view), cutoff)
  {
    if view != [] {
      hide M.Expired, Surviving;
      var n := |view| - 1;
      var recent, unread := M.Recent(view[..n], cutoff), UnreadMessages(view[..n]);
      SurvivingUnread(view[..n], cutoff);
      UnreadSnoc(recent, view[n]);
      SurvivingSnoc(unread, view[n].msg, cutoff);
      assert recent + [] == recent && unread + [] == unread;
    } else {
      assert Surviving([], cutoff) == [];
    }
  }

  lemma {:induction false} UnreadAppend(xs: seq<M.Flagged<Envelope>>, added: seq<M.Message<Envelope>>)
    ensures UnreadMessages(xs + Unflagged(added)) == UnreadMessages(xs) + added
  {
    hide UnreadMessages;
    if added == [] {
      assert xs + Unflagged(added) == xs;
    } else {
      var n := |added| - 1;
      UnreadAppend(xs, added[..n]);
      UnflaggedSnoc(xs, added);
      UnreadSnoc(xs + Unflagged(added[..n]), M.Flagged(added[n], false));
      hide Unflagged;
      Regroup(UnreadMessages(xs), added);
    }
  }

  lemma UnflaggedSnoc(xs: seq<M.Flagged<Envelope>>, added: seq<M.Message<Envelope>>)
    requires added != []
    ensures xs + Unflagged(added) == xs + Unflagged(added[..|added| - 1]) + [M.Flagged(added[|added| - 1], false)]
  {}

  lemma Regroup(xs: seq<M.Message<Envelope>>, added: seq<M.Message<Envelope>>)
    requires added != []
    ensures xs + added == xs + added[..|added| - 1] + [added[|added| - 1]]
  {}

  function Unflagged(ms: seq<M.Message<Envelope>>): seq<M.Flagged<Envelope>> {
    seq(|ms|, i requires 0 <= i < |ms| => M.Flagged(ms[i], false))
  }

  lemma {:induction false} NoneUnread(view: seq<M.Flagged<Envelope>>)
    requires forall i :: 0 <= i < |view| ==> view[i].read
    ensures UnreadMessages(view) == []
  {
    if view != [] { NoneUnread(view[..|view| - 1]); }
  }

  // ---------- What a run leaves to read ----------

  predicate Idle(y: Sys, c: nat) {
    c in y.clients && !y.clients[c].waiting
  }

  function StampedAll(envelopes: seq<Envelope>, at: int): seq<M.Message<Envelope>> {
    seq(|envelopes|, i requires 0 <= i < |envelopes| => Stamped(envelopes[i], at))
  }

  function Replies(y: Sys): seq<Envelope> {
    HandleAll(y.world, y.members, UnreadIn(y.st, ANNOUNCE)).replies
  }

  /** The messages that a step puts on a mailbox. */
  function Added(y: Sys, op: Op, b: string): seq<M.Message<Envelope>> {
    match op
    case Post(c, at) => if b == ANNOUNCE && Idle(y, c) then [Stamped(HelloFrom(y.clients[c].identity), at)] else []
    case PostAny(e, at) => if b == ANNOUNCE then [Stamped(e, at)] else []
    case Drain(c, at) =>
      if b == ANNOUNCE && Idle(y, c) && AnyConcerns(UnreadIn(y.st, INVALIDATE), y.clients[c].identity.agentId)
      then [Stamped(HelloFrom(y.clients[c].identity), at)] else []
    case Notify(target, at) => if b == INVALIDATE then [Stamped(Notice(target), at)] else []
    case Pump(at) => if b == EVENTS then StampedAll(Replies(y), at) else []
    case _ => []
  }

  /** Every message carries the time of the step that put it there. */
  lemma AddedAreDated(y: Sys, op: Op, b: string, m: M.Message<Envelope>)
    requires m in Added(y, op, b)
    ensures (op.Post? || op.PostAny? || op.Drain? || op.Notify? || op.Pump?) && m.sentAt == Some(op.at)
  {}

  /** The step reads the mailbox: a pump the announces, the poll of a waiting client the
    * events, and the drain of an idle client the invalidations. */
  predicate Reads(y: Sys, op: Op, b: string) {
    || (op.Pump? && b == ANNOUNCE)
    || (op.Poll? && b == EVENTS && op.c in y.clients && y.clients[op.c].waiting)
    || (op.Drain? && b == INVALIDATE && Idle(y, op.c))
  }

  /** What a run leaves unread on a mailbox: what was put there since it was last read by
    * anybody, and not purged. */
  function Pending(world: World, ops: seq<Op>, b: string): seq<M.Message<Envelope>> {
    if ops == [] then []
    else
      var before, op := ops[..|ops| - 1], ops[|ops| - 1];
      var p, y := Pending(world, before, b), Run(world, before);
      if op.Purge? then Surviving(p, op.cutoff) else (if Reads(y, op, b) then [] else p) + Added(y, op, b)
  }

  predicate IsOurs(b: string) {
    b == ANNOUNCE || b == EVENTS || b == INVALIDATE
  }

  /** No index is marked read before it has a message. */
  predicate Tight(box: M.Box<Envelope>) {
    forall i :: i in box.seen ==> i < |box.msgs|
  }

  lemma GrownBox(box: M.Box<Envelope>, added: seq<M.Message<Envelope>>)
    requires Tight(box)
    ensures
      var grown := M.Box(box.msgs + added, box.seen);
      Tight(grown) && UnreadMessages(M.View(grown)) == UnreadMessages(M.View(box)) + added
  {
    hide UnreadMessages;
    assert M.View(M.Box(box.msgs + added, box.seen)) == M.View(box) + Unflagged(added);
    UnreadAppend(M.View(box), added);
  }

  lemma ReadBox(box: M.Box<Envelope>)
    requires Tight(box)
    ensures Tight(M.AllRead(box)) && UnreadMessages(M.View(M.AllRead(box))) == []
  {
    NoneUnread(M.View(M.AllRead(box)));
  }

  lemma PurgedBox(box: M.Box<Envelope>, cutoff: int)
    requires Tight(box)
    ensures Tight(M.Purged(box, cutoff))
    ensures UnreadMessages(M.View(M.Purged(box, cutoff))) == Surviving(UnreadMessages(M.View(box)), cutoff)
  {
    hide UnreadMessages, Surviving, M.View, M.Recent;
    M.PurgeRefinesFilter(box, cutoff);
    SurvivingUnread(M.View(box), cutoff);
  }

  /** A step other than a purge adds and reads exactly what `Added` and `Reads` say. */
  lemma StepBox(y: Sys, op: Op, b: string)
    requires IsOurs(b) && !op.Purge?
    ensures M.BoxOf(Step(y, op).st, b).msgs == M.BoxOf(y.st, b).msgs + Added(y, op, b)
    ensures M.BoxOf(Step(y, op).st, b).seen ==
      if Reads(y, op, b) then M.AllRead(M.BoxOf(y.st, b)).seen else M.BoxOf(y.st, b).seen
  {
    hide UnreadIn, AnyConcerns, HelloFrom, Stamped, HandleAll, Posted, Issued, Scan, M.UpTo, Notice;
    if op.Pump? {
      PumpBox(y, op.at, b);
    }
  }

  lemma PumpBox(y: Sys, at: int, b: string)
    requires IsOurs(b)
    ensures M.BoxOf(Pumped(y, at).st, b).msgs == M.BoxOf(y.st, b).msgs + Added(y, Pump(at), b)
    ensures M.BoxOf(Pumped(y, at).st, b).seen ==
      if b == ANNOUNCE then M.AllRead(M.BoxOf(y.st, b)).seen else M.BoxOf(y.st, b).seen
  {
    hide UnreadIn, Stamped, HandleAll, Posted, Issued, M.UpTo;
    PostedAppends(M.Fetched(y.st, ANNOUNCE), EVENTS, Replies(y), at, b);
    assert M.BoxOf(M.Fetched(y.st, ANNOUNCE), b) == if b == ANNOUNCE then M.AllRead(M.BoxOf(y.st, b)) else M.BoxOf(y.st, b);
  }

  ghost predicate Readable(world: World, ops: seq<Op>, b: string) {
    var box := M.BoxOf(Run(world, ops).st, b);
    Tight(box) && UnreadMessages(M.View(box)) == Pending(world, ops, b)
  }

  lemma {:induction false} AlwaysReadable(world: World, ops: seq<Op>, b: string)
    requires IsOurs(b)
    ensures Readable(world, ops, b)
  {
    hide Tight, Step, M.BoxOf, M.View, UnreadMessages, Reads, Added, Surviving, M.AllRead;
    if ops == [] {
      StartReadable(world, b);
    } else {
      var before, op := ops[..|ops| - 1], ops[|ops| - 1];
      var y := Run(world, before);
      var box := M.BoxOf(y.st, b);
      AlwaysReadable(world, before, b);
      if op.Purge? {
        PurgeReadable(y, op.cutoff, b);
      } else {
        StepBox(y, op, b);
        GrownBox(box, Added(y, op, b));
        if Reads(y, op, b) {
          ReadBox(box);
          NothingAdded(y, op, b);
          ReadMessages(box);
        }
      }
    }
  }

  lemma StartReadable(world: World, b: string)
    ensures Readable(world, [], b)
  {}

  lemma NothingAdded(y: Sys, op: Op, b: string)
    requires Reads(y, op, b)
    ensures Added(y, op, b) == []
  {}

  lemma ReadMessages(box: M.Box<Envelope>)
    ensures M.AllRead(box) == M.Box(box.msgs + [], M.AllRead(box).seen)
  {}

  lemma PurgeReadable(y: Sys, cutoff: int, b: string)
    requires Tight(M.BoxOf(y.st, b))
    ensures
      var before, after := M.BoxOf(y.st, b), M.BoxOf(Step(y, Purge(cutoff)).st, b);
      Tight(after) && UnreadMessages(M.View(after)) == Surviving(UnreadMessages(M.View(before)), cutoff)
  {
    M.PurgedBoxOf(y.st, cutoff, b);
    hide M.PurgedStore, M.Purged;
    if b in y.st.boxes {
      PurgedBox(M.BoxOf(y.st, b), cutoff);
    } else {
      assert UnreadMessages(M.View(M.BoxOf(y.st, b))) == [] && Surviving([], cutoff) == [];
    }
  }

  /** What a reader finds on a mailbox, over any run. */
  lemma UnreadIsPending(world: World, ops: seq<Op>, b: string)
    requires IsOurs(b)
    ensures UnreadIn(Run(world, ops).st, b) == Bodies(Pending(world, ops, b))
  {
    AlwaysReadable(world, ops, b);
    BodiesOfUnread(M.View(M.BoxOf(Run(world, ops).st, b)));
  }

  // ---------- The same, step by step ----------

  /** A message that step i put on the mailbox has been neither read nor purged since. */
  ghost predicate Lasts(world: World, ops: seq<Op>, i: nat, b: string, m: M.Message<Envelope>) {
    forall j :: i < j < |ops| ==>
      !Reads(Run(world, ops[..j]), ops[j], b) && (ops[j].Purge? ==> m.sentAt.None? || m.sentAt.value >= ops[j].cutoff)
  }

  ghost predicate PutAt(world: World, ops: seq<Op>, i: nat, b: string, m: M.Message<Envelope>)
    requires i < |ops|
  {
    m in Added(Run(world, ops[..i]), ops[i], b) && Lasts(world, ops, i, b, m)
  }

  lemma {:induction false} SurvivingMember(ms: seq<M.Message<Envelope>>, cutoff: int, m: M.Message<Envelope>)
    ensures m in Surviving(ms, cutoff) <==> m in ms && (m.sentAt.None? || m.sentAt.value >= cutoff)
  {
    if ms != [] {
      var n := |ms| - 1;
      SurvivingMember(ms[..n], cutoff, m);
      assert ms == ms[..n] + [ms[n]];
    }
  }

  lemma LastsLonger(world: World, before: seq<Op>, op: Op, i: nat, b: string, m: M.Message<Envelope>)
    requires i < |before|
    ensures PutAt(world, before + [op], i, b, m) <==>
      PutAt(world, before, i, b, m) && !Reads(Run(world, before), op, b) && (op.Purge? ==> m.sentAt.None? || m.sentAt.value >= op.cutoff)
  {
    hide Run, Reads, Added, M.Expired;
    var ops := before + [op];
    forall j | 0 <= j <= |before| ensures ops[..j] == before[..j] {}
    assert before[..|before|] == before && ops[|before|] == op;
    if PutAt(world, before, i, b, m) && !Reads(Run(world, before), op, b) && (op.Purge? ==> m.sentAt.None? || m.sentAt.value >= op.cutoff) {
      forall j | i < j < |ops| ensures !Reads(Run(world, ops[..j]), ops[j], b) && (ops[j].Purge? ==> m.sentAt.None? || m.sentAt.value >= ops[j].cutoff) {
        if j < |before| { assert ops[j] == before[j] && ops[..j] == before[..j]; }
      }
    }
    if PutAt(world, ops, i, b, m) {
      forall j | i < j < |before| ensures !Reads(Run(world, before[..j]), before[j], b) && (before[j].Purge? ==> m.sentAt.None? || m.sentAt.value >= before[j].cutoff) {
        assert ops[j] == before[j] && ops[..j] == before[..j];
      }
      assert ops[..|before|] == before;
    }
  }

  /** A message is left to read exactly when some step put it there and it lasted. */
  lemma {:induction false} PendingSince(world: World, ops: seq<Op>, b: string, m: M.Message<Envelope>)
    ensures m in Pending(world, ops, b) <==> exists i :: 0 <= i < |ops| && PutAt(world, ops, i, b, m)
  {
    if ops != [] {
      var n := |ops| - 1;
      var before, op := ops[..n], ops[n];
      assert ops == before + [op];
      PendingSince(world, before, b, m);
      hide PutAt, Run, Reads, Added, M.Expired, Surviving;
      if op.Purge? { SurvivingMember(Pending(world, before, b), op.cutoff, m); }
      LastPut(world, before, op, b, m);
      forall i | 0 <= i < n ensures PutAt(world, ops, i, b, m) <==>
        PutAt(world, before, i, b, m) && !Reads(Run(world, before), op, b) && (op.Purge? ==> m.sentAt.None? || m.sentAt.value >= op.cutoff)
      {
        LastsLonger(world, before, op, i, b, m);
      }
    }
  }

  lemma LastPut(world: World, before: seq<Op>, op: Op, b: string, m: M.Message<Envelope>)
    ensures PutAt(world, before + [op], |before|, b, m) <==> m in Added(Run(world, before), op, b)
    ensures op.Purge? ==> Added(Run(world, before), op, b) == [] && !Reads(Run(world, before), op, b)
  {
    assert (before + [op])[..|before|] == before;
  }

  // ---------- Which drain announces again ----------

  /** A notice that concerns the agent was given at step i, and nobody has read it since. */
  ghost predicate NoticedAt(world: World, ops: seq<Op>, i: nat, agentId: string)
    requires i < |ops|
  {
    && ops[i].Notify? && (ops[i].target == agentId || ops[i].target == REGISTRY)
    && Lasts(world, ops, i, INVALIDATE, Stamped(Notice(ops[i].target), ops[i].at))
  }

  lemma ConcernedIff(world: World, ops: seq<Op>, agentId: string)
    ensures AnyConcerns(UnreadIn(Run(world, ops).st, INVALIDATE), agentId) <==>
      exists i :: 0 <= i < |ops| && NoticedAt(world, ops, i, agentId)
  {
    hide Run, Lasts, Pending, UnreadIn;
    var pending := Pending(world, ops, INVALIDATE);
    UnreadIsPending(world, ops, INVALIDATE);
    if AnyConcerns(Bodies(pending), agentId) {
      var e :| e in Bodies(pending) && Concerns(e, agentId);
      var k :| 0 <= k < |pending| && pending[k].body == e;
      PendingSince(world, ops, INVALIDATE, pending[k]);
      var i :| 0 <= i < |ops| && PutAt(world, ops, i, INVALIDATE, pending[k]);
      assert NoticedAt(world, ops, i, agentId);
    }
    if i :| 0 <= i < |ops| && NoticedAt(world, ops, i, agentId) {
      var m := Stamped(Notice(ops[i].target), ops[i].at);
      assert PutAt(world, ops, i, INVALIDATE, m);
      PendingSince(world, ops, INVALIDATE, m);
      var k :| 0 <= k < |pending| && pending[k] == m;
      assert Bodies(pending)[k] == m.body && Concerns(m.body, agentId);
    }
  }

  /** Over any run, the drain of an idle client announces again exactly when a notice for
    * its agent id or for the registry was given after the last drain by any idle client,
    * and not purged; otherwise it changes no announce. */
  lemma DrainAnnouncesIff(world: World, ops: seq<Op>, c: nat, at: int)
    requires Idle(Run(world, ops), c)
    ensures
      var y, z := Run(world, ops), Step(Run(world, ops), Drain(c, at));
      var due := exists i :: 0 <= i < |ops| && NoticedAt(world, ops, i, y.clients[c].identity.agentId);
      && M.BoxOf(z.st, ANNOUNCE).msgs ==
        M.BoxOf(y.st, ANNOUNCE).msgs + (if due then [Stamped(HelloFrom(y.clients[c].identity), at)] else [])
      && z.clients == y.clients[c := y.clients[c].(waiting := due)]
  {
    hide Run, NoticedAt, UnreadIn, AnyConcerns, HelloFrom, Stamped;
    var y := Run(world, ops);
    ConcernedIff(world, ops, y.clients[c].identity.agentId);
    StepBox(y, Drain(c, at), ANNOUNCE);
  }

  /** So a registry event, which is meant for all clients, is heeded by one: the first idle
    * client that drains announces again, and one that drains next does not. */
  lemma RegistryChangeReachesOneClient(world: World, ops: seq<Op>, c1: nat, c2: nat, t0: int, t1: int, t2: int)
    requires c1 != c2 && Idle(Run(world, ops), c1) && Idle(Run(world, ops), c2)
    ensures
      var y := Run(world, ops);
      var first := Step(Step(y, Notify(REGISTRY, t0)), Drain(c1, t1));
      var second := Step(first, Drain(c2, t2));
      && M.BoxOf(first.st, ANNOUNCE).msgs == M.BoxOf(y.st, ANNOUNCE).msgs + [Stamped(HelloFrom(y.clients[c1].identity), t1)]
      && M.BoxOf(second.st, ANNOUNCE).msgs == M.BoxOf(first.st, ANNOUNCE).msgs
      && second.clients == first.clients
  {
    hide Step, Run, NoticedAt, HelloFrom, Stamped;
    var y := Run(world, ops);
    var noticed, drained := ops + [Notify(REGISTRY, t0)], ops + [Notify(REGISTRY, t0)] + [Drain(c1, t1)];
    RunOneMore(world, ops, Notify(REGISTRY, t0));
    RunOneMore(world, noticed, Drain(c1, t1));
    NotifyKeepsClients(y, t0);
    FreshNotice(world, ops, t0, y.clients[c1].identity.agentId);
    DrainAnnouncesIff(world, noticed, c1, t1);
    DrainAnnouncesIff(world, drained, c2, t2);
    forall i | 0 <= i < |drained| ensures !NoticedAt(world, drained, i, y.clients[c2].identity.agentId) {
      DrainedNotice(world, noticed, c1, t1, i, y.clients[c2].identity.agentId);
    }
  }

  lemma NotifyKeepsClients(y: Sys, at: int)
    ensures Step(y, Notify(REGISTRY, at)).clients == y.clients
    ensures M.BoxOf(Step(y, Notify(REGISTRY, at)).st, ANNOUNCE) == M.BoxOf(y.st, ANNOUNCE)
  {}

  lemma FreshNotice(world: World, ops: seq<Op>, at: int, agentId: string)
    ensures NoticedAt(world, ops + [Notify(REGISTRY, at)], |ops|, agentId)
  {}

  lemma DrainedNotice(world: World, ops: seq<Op>, c: nat, at: int, i: nat, agentId: string)
    requires Idle(Run(world, ops), c) && i <= |ops|
    ensures !NoticedAt(world, ops + [Drain(c, at)], i, agentId)
  {
    hide Run;
    var all := ops + [Drain(c, at)];
    assert all[..|ops|] == ops && all[|ops|] == Drain(c, at);
    assert Reads(Run(world, all[..|ops|]), all[|ops|], INVALIDATE);
  }

  // ---------- Which poll finds a reply ----------

  lemma {:induction false} ScanWaits(replies: seq<Envelope>, mailbox: string)
    requires forall e :: e in replies ==> IsReply(e)
    ensures Scan(replies, mailbox) == Waiting <==> forall e :: e in replies ==> e.to != mailbox
  {
    if replies != [] {
      assert replies[0] in replies && replies == [replies[0]] + replies[1..];
      ScanWaits(replies[1..], mailbox);
    }
  }

  lemma UnreadAreReplies(world: World, ops: seq<Op>, e: Envelope)
    requires e in UnreadIn(Run(world, ops).st, EVENTS)
    ensures IsReply(e)
  {
    hide Run, UnreadIn, M.BoxOf;
    UnreadStored(Run(world, ops).st, EVENTS, e);
    RepliesAnswerAnnounces(world, ops);
  }

  /** Over any run, a poll ends the wait exactly when a reply to the client's mailbox was
    * put on the events mailbox after the last poll by any waiting client, and not purged. */
  lemma PollFindsReplyIff(world: World, ops: seq<Op>, mailbox: string)
    ensures Scan(UnreadIn(Run(world, ops).st, EVENTS), mailbox) != Waiting <==>
      exists i, m :: 0 <= i < |ops| && PutAt(world, ops, i, EVENTS, m) && m.body.to == mailbox
  {
    hide Run, UnreadIn, PutAt, Pending, IsReply;
    var unread, pending := UnreadIn(Run(world, ops).st, EVENTS), Pending(world, ops, EVENTS);
    UnreadIsPending(world, ops, EVENTS);
    forall e | e in unread ensures IsReply(e) { UnreadAreReplies(world, ops, e); }
    ScanWaits(unread, mailbox);
    if e :| e in unread && e.to == mailbox {
      var k :| 0 <= k < |pending| && pending[k].body == e;
      PendingSince(world, ops, EVENTS, pending[k]);
    }
    if i, m :| 0 <= i < |ops| && PutAt(world, ops, i, EVENTS, m) && m.body.to == mailbox {
      PendingSince(world, ops, EVENTS, m);
      var k :| 0 <= k < |pending| && pending[k] == m;
      assert Bodies(pending)[k] == m.body;
    }
  }

  /** Read status is shared: in any state, one client's poll leaves nothing to read, so
    * another client's next poll comes back empty even if its reply was there. */
  lemma PollTakesEverything(y: Sys, c: nat, other: Identity)
    requires c in y.clients
    ensures Scan(UnreadIn(Polled(y, c).st, EVENTS), Primary(other)) == Waiting
  {
    hide Scan, Primary;
    var view := M.View(M.BoxOf(Polled(y, c).st, EVENTS));
    NoneUnread(view);
    BodiesOfUnread(view);
    NothingScanned(Primary(other));
  }

  lemma NothingScanned(mailbox: string)
    ensures Scan([], mailbox) == Waiting
  {}

  /** Progress: right after a pump a poll ends the wait exactly when a reply to the mailbox
    * was waiting already, or the pump got to an announce that is answered there. */
  lemma PollAfterPump(world: World, ops: seq<Op>, at: int, mailbox: string)
    ensures
      var y, z := Run(world, ops), Run(world, ops + [Pump(at)]);
      Scan(UnreadIn(z.st, EVENTS), mailbox) != Waiting <==>
        || Scan(UnreadIn(y.st, EVENTS), mailbox) != Waiting
        || exists k :: 0 <= k < |Replies(y)| && k < |UnreadIn(y.st, ANNOUNCE)|
            && ReplyAddress(UnreadIn(y.st, ANNOUNCE)[k]) == mailbox
  {
    hide Run, UnreadIn, IsReply, Replies, ReplyAddress;
    var y := Run(world, ops);
    var before, after := UnreadIn(y.st, EVENTS), UnreadIn(Run(world, ops + [Pump(at)]).st, EVENTS);
    PumpLeaves(world, ops, at);
    forall e | e in after ensures IsReply(e) { UnreadAreReplies(world, ops + [Pump(at)], e); }
    forall e | e in before ensures IsReply(e) { assert e in after; }
    ScanWaits(before, mailbox);
    ScanWaits(after, mailbox);
    RepliesInOrder(y);
  }

  lemma RepliesInOrder(y: Sys)
    ensures |Replies(y)| <= |UnreadIn(y.st, ANNOUNCE)|
    ensures forall k :: 0 <= k < |Replies(y)| ==> Replies(y)[k].to == ReplyAddress(UnreadIn(y.st, ANNOUNCE)[k])
  {
    hide HandleAll, UnreadIn, ReplyAddress, Answerable;
    OneReplyEach(y.world, y.members, UnreadIn(y.st, ANNOUNCE));
  }

  /** A pump leaves its replies to read behind what was there. */
  lemma PumpLeaves(world: World, ops: seq<Op>, at: int)
    ensures UnreadIn(Run(world, ops + [Pump(at)]).st, EVENTS) == UnreadIn(Run(world, ops).st, EVENTS) + Replies(Run(world, ops))
  {
    hide Run, UnreadIn, Replies, Stamped;
    var p, replies := Pending(world, ops, EVENTS), Replies(Run(world, ops));
    assert (ops + [Pump(at)])[..|ops|] == ops;
    UnreadIsPending(world, ops, EVENTS);
    UnreadIsPending(world, ops + [Pump(at)], EVENTS);
    StampedBodies(p, replies, at);
  }

  lemma StampedBodies(p: seq<M.Message<Envelope>>, replies: seq<Envelope>, at: int)
    ensures Bodies(p + StampedAll(replies, at)) == Bodies(p) + replies
  {}

  /** What a waiting client makes of a poll, over any run: the first reply to its mailbox
    * among what is left to read decides. A manifest is cached, an error leaves the cache
    * alone, either ends the wait, and without any nothing changes for the client. */
  lemma PollCaches(world: World, ops: seq<Op>, c: nat)
    requires c in Run(world, ops).clients && Run(world, ops).clients[c].waiting
    ensures
      var before, after := Run(world, ops).clients[c], Run(world, ops + [Poll(c)]).clients[c];
      var unread, mailbox := Bodies(Pending(world, ops, EVENTS)), before.identity.box + "." + before.identity.boxN;
      && after.identity == before.identity
      && (forall m :: FirstReply(unread, mailbox, ManifestReply(m)) ==> after.manifest == Some(m) && !after.waiting)
      && (forall k :: FirstReply(unread, mailbox, ErrorReply(k)) ==> after.manifest == before.manifest && !after.waiting)
      && ((forall e :: e in unread && e.to == mailbox ==> !IsReply(e)) ==> after == before)
  {
    hide Run, Scan, FirstReply, Pending, UnreadIn;
    var client := Run(world, ops).clients[c];
    RunOneMore(world, ops, Poll(c));
    UnreadIsPending(world, ops, EVENTS);
    FirstReplyDecides(Bodies(Pending(world, ops, EVENTS)), Primary(client.identity));
  }
}
