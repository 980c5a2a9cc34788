/** Runs of the mail store: what readers get, over any sequence of operations. */
module MailRuns {
  import opened Outcomes
  import opened Mailbox

  /** A message as a run sees it: its text and its position in the mailbox's append log. */
  datatype Letter<T> = Letter(pos: nat, text: T)

  datatype Op<T> =
    | Create(b: string)
    | Append(b: string, text: T, sentAt: Option<int>)
    | CountUnseen(b: string)
    | Fetch(b: string)
    | Purge(cutoff: int)
    | Delete(b: string)

  /** The store, and for each mailbox its append log, whether the index of each message
    * was already marked read when it was appended, everything its fetches have returned,
    * and the length of the log at the last fetch. */
  datatype Trace<T> = Trace(
    st: Store<Letter<T>>,
    log: map<string, seq<T>>,
    marked: map<string, seq<bool>>,
    returned: map<string, seq<Letter<T>>>,
    fetchedAt: map<string, nat>)

  function Get<X>(m: map<string, seq<X>>, b: string): seq<X> {
    if b in m then m[b] else []
  }

  function FetchedAt<T>(tr: Trace<T>, b: string): nat {
    if b in tr.fetchedAt then tr.fetchedAt[b] else 0
  }

  function ViewOf<T>(tr: Trace<T>, b: string): seq<Flagged<Letter<T>>> {
    View(BoxOf(tr.st, b))
  }

  function Step<T>(tr: Trace<T>, op: Op<T>): Trace<T> {
    match op
    case Create(b) => tr.(st := Created(tr.st, b))
    case Append(b, text, sentAt) =>
      var log := Get(tr.log, b);
      var box := BoxOf(tr.st, b);
      tr.(st := WithMessage(tr.st, b, Message(Letter(|log|, text), sentAt)),
          log := tr.log[b := log + [text]],
          marked := tr.marked[b := Get(tr.marked, b) + [|box.msgs| in box.seen]])
    case CountUnseen(b) => tr.(st := WithBox(tr.st, b, BoxOf(tr.st, b)))
    case Fetch(b) =>
      tr.(st := Fetched(tr.st, b),
          returned := tr.returned[b := Get(tr.returned, b) + Unread(ViewOf(tr, b))],
          fetchedAt := tr.fetchedAt[b := |Get(tr.log, b)|])
    case Purge(cutoff) => tr.(st := PurgedStore(tr.st, cutoff))
    case Delete(b) => tr.(st := Deleted(tr.st, b))
  }

  function Run<T>(ops: seq<Op<T>>): Trace<T> {
    if ops == [] then Trace(Store(map[], map[]), map[], map[], map[], map[])
    else Step(Run(ops[..|ops| - 1]), ops[|ops| - 1])
  }

  // ---------- Order ----------

  predicate InOrder<T>(view: seq<Flagged<Letter<T>>>) {
    forall i, j :: 0 <= i < j < |view| ==> view[i].msg.body.pos < view[j].msg.body.pos
  }

  predicate Increasing<T>(letters: seq<Letter<T>>) {
    forall i, j :: 0 <= i < j < |letters| ==> letters[i].pos < letters[j].pos
  }

  lemma {:induction false} RecentInOrder<T>(view: seq<Flagged<Letter<T>>>, cutoff: int)
    requires InOrder(view)
    ensures InOrder(Recent(view, cutoff))
  {
    if view != [] {
      var n := |view| - 1;
      RecentInOrder(view[..n], cutoff);
      var front := Recent(view[..n], cutoff);
      forall i | 0 <= i < |front| ensures front[i].msg.body.pos < view[n].msg.body.pos {
        RecentMember(view[..n], cutoff, front[i]);
        var j :| 0 <= j < n && view[..n][j] == front[i];
      }
    }
  }

  ghost predicate IsUnread<T>(view: seq<Flagged<Letter<T>>>, l: Letter<T>) {
    exists i :: 0 <= i < |view| && !view[i].read && view[i].msg.body == l
  }

  lemma {:induction false} UnreadMember<T>(view: seq<Flagged<Letter<T>>>, l: Letter<T>)
    ensures l in Unread(view) <==> IsUnread(view, l)
  {
    if view != [] {
      var n := |view| - 1;
      UnreadMember(view[..n], l);
      if IsUnread(view[..n], l) {
        var i :| 0 <= i < n && !view[..n][i].read && view[..n][i].msg.body == l;
        assert !view[i].read;
      }
      if IsUnread(view, l) {
        var i :| 0 <= i < |view| && !view[i].read && view[i].msg.body == l;
        if i < n { assert !view[..n][i].read; }
      }
    }
  }

  lemma {:induction false} UnreadInOrder<T>(view: seq<Flagged<Letter<T>>>)
    requires InOrder(view)
    ensures Increasing(Unread(view))
  {
    if view != [] {
      var n := |view| - 1;
      UnreadInOrder(view[..n]);
      var front := Unread(view[..n]);
      forall i | 0 <= i < |front| ensures front[i].pos < view[n].msg.body.pos {
        UnreadMember(view[..n], front[i]);
        var j :| 0 <= j < n && !view[..n][j].read && view[..n][j].msg.body == front[i];
      }
    }
  }

  // ---------- The invariant ----------

  /** A flag says exactly whether the message was appended before the last fetch, or on an
    * index that was marked already. */
  ghost predicate SoundView<T>(view: seq<Flagged<Letter<T>>>, log: seq<T>, marks: seq<bool>, at: nat) {
    && InOrder(view)
    && |marks| == |log|
    && forall x :: x in view ==>
        x.msg.body.pos < |log| && log[x.msg.body.pos] == x.msg.body.text
        && (x.read <==> x.msg.body.pos < at || marks[x.msg.body.pos])
  }

  ghost predicate Sound<T>(tr: Trace<T>, b: string) {
    var log, at := Get(tr.log, b), FetchedAt(tr, b);
    && at <= |log|
    && SoundView(ViewOf(tr, b), log, Get(tr.marked, b), at)
    && Increasing(Get(tr.returned, b))
    && (forall l :: l in Get(tr.returned, b) ==> l.pos < at && log[l.pos] == l.text)
  }

  lemma AppendKeepsSound<T>(tr: Trace<T>, b: string, text: T, sentAt: Option<int>)
    requires Sound(tr, b)
    ensures Sound(Step(tr, Append(b, text, sentAt)), b)
  {
    var next := Step(tr, Append(b, text, sentAt));
    var box, log := BoxOf(tr.st, b), Get(tr.log, b);
    var mark := |box.msgs| in box.seen;
    assert ViewOf(next, b) == ViewOf(tr, b) + [Flagged(Message(Letter(|log|, text), sentAt), mark)];
    AppendedSound(ViewOf(tr, b), log, Get(tr.marked, b), FetchedAt(tr, b), text, sentAt, mark);
    hide SoundView, View, Increasing;
  }

  lemma AppendedSound<T>(view: seq<Flagged<Letter<T>>>, log: seq<T>, marks: seq<bool>, at: nat, text: T, sentAt: Option<int>, mark: bool)
    requires SoundView(view, log, marks, at) && at <= |log|
    ensures SoundView(view + [Flagged(Message(Letter(|log|, text), sentAt), mark)], log + [text], marks + [mark], at)
  {
    forall i | 0 <= i < |view| ensures view[i].msg.body.pos < |log| { assert view[i] in view; }
  }

  lemma FetchKeepsSound<T>(tr: Trace<T>, b: string)
    requires Sound(tr, b)
    ensures Sound(Step(tr, Fetch(b)), b)
  {
    var log, marks, at := Get(tr.log, b), Get(tr.marked, b), FetchedAt(tr, b);
    ReadViewSound(ViewOf(tr, b), ViewOf(Step(tr, Fetch(b)), b), log, marks, at);
    ReturnedSound(ViewOf(tr, b), Get(tr.returned, b), log, marks, at);
    hide SoundView, Unread, View, Increasing, UpTo;
  }

  lemma ReadViewSound<T>(view: seq<Flagged<Letter<T>>>, view': seq<Flagged<Letter<T>>>, log: seq<T>, marks: seq<bool>, at: nat)
    requires SoundView(view, log, marks, at) && |view'| == |view|
    requires forall i :: 0 <= i < |view| ==> view'[i] == Flagged(view[i].msg, true)
    ensures SoundView(view', log, marks, |log|)
  {
    forall x | x in view' ensures x.read && x.msg.body.pos < |log| && log[x.msg.body.pos] == x.msg.body.text {
      var i :| 0 <= i < |view'| && view'[i] == x;
      assert view[i] in view;
    }
  }

  lemma ReturnedSound<T>(view: seq<Flagged<Letter<T>>>, past: seq<Letter<T>>, log: seq<T>, marks: seq<bool>, at: nat)
    requires SoundView(view, log, marks, at) && at <= |log|
    requires Increasing(past) && forall l :: l in past ==> l.pos < at && log[l.pos] == l.text
    ensures Increasing(past + Unread(view))
    ensures forall l :: l in past + Unread(view) ==> l.pos < |log| && log[l.pos] == l.text
  {
    var found := Unread(view);
    UnreadInOrder(view);
    forall l | l in found ensures at <= l.pos < |log| && log[l.pos] == l.text {
      UnreadMember(view, l);
      var k :| 0 <= k < |view| && !view[k].read && view[k].msg.body == l;
      assert view[k] in view;
    }
    forall i, j | 0 <= i < |past| && 0 <= j < |found| ensures past[i].pos < found[j].pos {
      assert past[i] in past && found[j] in found;
    }
  }

  lemma PurgedSound<T>(box: Box<Letter<T>>, cutoff: int, log: seq<T>, marks: seq<bool>, at: nat)
    requires SoundView(View(box), log, marks, at)
    ensures SoundView(View(Purged(box, cutoff)), log, marks, at)
  {
    PurgeRefinesFilter(box, cutoff);
    RecentInOrder(View(box), cutoff);
    forall x | x in Recent(View(box), cutoff) ensures x in View(box) { RecentMember(View(box), cutoff, x); }
  }

  lemma PurgeKeepsSound<T>(tr: Trace<T>, b: string, cutoff: int)
    requires Sound(tr, b)
    ensures Sound(Step(tr, Purge(cutoff)), b)
  {
    PurgedBoxOf(tr.st, cutoff, b);
    if b in tr.st.boxes {
      PurgedSound(BoxOf(tr.st, b), cutoff, Get(tr.log, b), Get(tr.marked, b), FetchedAt(tr, b));
    }
  }

  lemma DeleteKeepsSound<T>(tr: Trace<T>, b: string)
    requires Sound(tr, b)
    ensures Sound(Step(tr, Delete(b)), b)
  {
    assert ViewOf(Step(tr, Delete(b)), b) == [];
  }

  lemma {:induction false} AlwaysSound<T>(ops: seq<Op<T>>, b: string)
    ensures Sound(Run(ops), b)
  {
    if ops != [] {
      var before, op := ops[..|ops| - 1], ops[|ops| - 1];
      AlwaysSound(before, b);
      match op
      case Append(c, text, sentAt) =>
        if c == b { AppendKeepsSound(Run(before), b, text, sentAt); }
        else { assert BoxOf(Run(ops).st, b) == BoxOf(Run(before).st, b); }
      case Fetch(c) =>
        if c == b { FetchKeepsSound(Run(before), b); }
        else { assert BoxOf(Run(ops).st, b) == BoxOf(Run(before).st, b); }
      case Purge(cutoff) => PurgeKeepsSound(Run(before), b, cutoff);
      case Delete(c) =>
        if c == b { DeleteKeepsSound(Run(before), b); }
        else { assert BoxOf(Run(ops).st, b) == BoxOf(Run(before).st, b); }
      case _ => assert BoxOf(Run(ops).st, b) == BoxOf(Run(before).st, b);
    }
  }

  // ---------- Mailboxes that are never deleted ----------

  predicate NoDelete<T>(ops: seq<Op<T>>, b: string) {
    forall i :: 0 <= i < |ops| ==> ops[i] != Delete(b)
  }

  predicate Tight<E>(box: Box<E>) {
    forall i :: i in box.seen ==> i < |box.msgs|
  }

  predicate NoneMarked(marks: seq<bool>) {
    forall i :: 0 <= i < |marks| ==> !marks[i]
  }

  lemma PurgedTight<E>(box: Box<E>, cutoff: int)
    requires Tight(box)
    ensures Tight(Purged(box, cutoff))
  {
    hide Recent, View;
  }

  /** Without deletions no index is marked before it has a message. */
  lemma {:induction false} AlwaysTight<T>(ops: seq<Op<T>>, b: string)
    requires NoDelete(ops, b)
    ensures Tight(BoxOf(Run(ops).st, b)) && NoneMarked(Get(Run(ops).marked, b))
  {
    if ops != [] {
      var before, op := ops[..|ops| - 1], ops[|ops| - 1];
      AlwaysTight(before, b);
      TightStep(Run(before), op, b);
    }
  }

  lemma TightStep<T>(tr: Trace<T>, op: Op<T>, b: string)
    requires Tight(BoxOf(tr.st, b)) && NoneMarked(Get(tr.marked, b)) && op != Delete(b)
    ensures Tight(BoxOf(Step(tr, op).st, b)) && NoneMarked(Get(Step(tr, op).marked, b))
  {
    hide Unread, View;
    match op
    case Purge(cutoff) =>
      PurgedBoxOf(tr.st, cutoff, b);
      PurgedTight(BoxOf(tr.st, b), cutoff);
    case Fetch(c) =>
      assert BoxOf(Fetched(tr.st, c), b) == if b == c then AllRead(BoxOf(tr.st, b)) else BoxOf(tr.st, b);
    case _ =>
  }

  lemma UnreadStaysUnread<T>(view: seq<Flagged<Letter<T>>>, log: seq<T>, marks: seq<bool>, at: nat, k: nat, i: nat)
    requires SoundView(view, log, marks, at) && NoneMarked(marks) && k <= i < |view| && !view[k].read
    ensures !view[i].read
  {
    assert view[k] in view && view[i] in view;
  }

  /** In every state that a run reaches without deleting the mailbox, its seen set is a
    * prefix of the message indices. */
  lemma SeenIsPrefix<T>(ops: seq<Op<T>>, b: string)
    requires NoDelete(ops, b)
    ensures exists k: nat :: k <= |BoxOf(Run(ops).st, b).msgs| && BoxOf(Run(ops).st, b).seen == UpTo(k)
  {
    AlwaysSound(ops, b);
    AlwaysTight(ops, b);
    var box, view := BoxOf(Run(ops).st, b), ViewOf(Run(ops), b);
    var k: nat := 0;
    while k < |box.msgs| && k in box.seen
      invariant k <= |box.msgs|
      invariant forall i: nat :: i < k ==> i in box.seen
    {
      k := k + 1;
    }
    forall i: nat | i in box.seen ensures i < k {
      if i >= k { UnreadStaysUnread(view, Get(Run(ops).log, b), Get(Run(ops).marked, b), FetchedAt(Run(ops), b), k, i); }
    }
    assert box.seen == UpTo(k);
  }

  // ---------- What the fetches return ----------

  /** Over any run, deletions included, the fetches of a mailbox return a subsequence of
    * its append log: in order, each message at most once, and nothing that was not appended. */
  lemma ExactlyOnceInOrder<T>(ops: seq<Op<T>>, b: string)
    ensures Increasing(Get(Run(ops).returned, b))
    ensures forall l :: l in Get(Run(ops).returned, b) ==>
      l.pos < |Get(Run(ops).log, b)| && Get(Run(ops).log, b)[l.pos] == l.text
  {
    AlwaysSound(ops, b);
  }

  /** The index was marked already when the message was appended. */
  predicate MarkedAtAppend<T>(tr: Trace<T>, b: string, l: Letter<T>) {
    l.pos < |Get(tr.marked, b)| && Get(tr.marked, b)[l.pos]
  }

  /** Over any run, deletions included, the next fetch returns exactly the messages that are
    * still present, were appended after the previous fetch, and got an index that was not
    * marked then; without deletions no index is. */
  lemma FetchReturnsTheNew<T>(ops: seq<Op<T>>, b: string, l: Letter<T>)
    ensures l in Unread(ViewOf(Run(ops), b)) <==>
      (exists m :: m in BoxOf(Run(ops).st, b).msgs && m.body == l)
      && l.pos >= FetchedAt(Run(ops), b) && !MarkedAtAppend(Run(ops), b, l)
    ensures NoDelete(ops, b) ==> !MarkedAtAppend(Run(ops), b, l)
  {
    AlwaysSound(ops, b);
    if NoDelete(ops, b) { AlwaysTight(ops, b); }
    var view, msgs := ViewOf(Run(ops), b), BoxOf(Run(ops).st, b).msgs;
    UnreadMember(view, l);
    if IsUnread(view, l) {
      var i :| 0 <= i < |view| && !view[i].read && view[i].msg.body == l;
      assert view[i] in view && view[i].msg in msgs;
    }
    if m :| m in msgs && m.body == l && l.pos >= FetchedAt(Run(ops), b) && !MarkedAtAppend(Run(ops), b, l) {
      var i :| 0 <= i < |msgs| && msgs[i] == m;
      assert view[i] in view && view[i].msg == m;
    }
  }

  // ---------- What leaves a mailbox ----------

  /** A message leaves its mailbox only when the mailbox is deleted, or by a purge whose
    * cutoff is later than its date; every other step keeps it, and an append adds one. */
  lemma OnlyPurgeAndDeleteRemove<T>(tr: Trace<T>, op: Op<T>, b: string, m: Message<Letter<T>>)
    ensures m in BoxOf(tr.st, b).msgs ==>
      (m in BoxOf(Step(tr, op).st, b).msgs <==>
        op != Delete(b) && (op.Purge? ==> m.sentAt.None? || m.sentAt.value >= op.cutoff))
    ensures m in BoxOf(Step(tr, op).st, b).msgs && m !in BoxOf(tr.st, b).msgs ==>
      op == Append(b, m.body.text, m.sentAt) && m.body.pos == |Get(tr.log, b)|
    ensures op == Append(b, m.body.text, m.sentAt) && m.body.pos == |Get(tr.log, b)| ==>
      m in BoxOf(Step(tr, op).st, b).msgs
  {
    hide View, Unread, UpTo;
    match op
    case Purge(cutoff) =>
      PurgedBoxOf(tr.st, cutoff, b);
      PurgeKeepsRecent(BoxOf(tr.st, b), cutoff);
      hide Purged, PurgedStore;
    case _ =>
  }

  // ---------- Deleting a mailbox ----------

  /** Deleting keeps the seen set, so a message appended to a box of n messages is
    * handed out by the next fetch exactly when index n is not already marked. */
  lemma AppendedIsFetchedIff<E>(st: Store<E>, b: string, m: Message<E>)
    ensures Unread(View(BoxOf(WithMessage(st, b, m), b))) ==
      Unread(View(BoxOf(st, b))) + if |BoxOf(st, b).msgs| in BoxOf(st, b).seen then [] else [m.body]
  {
    var view := View(BoxOf(st, b));
    var after := View(BoxOf(WithMessage(st, b, m), b));
    assert after[..|view|] == view;
  }

  /** A message lost to a stale mark: append, fetch, delete, append again, fetch. */
  lemma DeleteLosesMail<E>(b: string, m1: Message<E>, m2: Message<E>)
    ensures
      var st := Fetched(WithMessage(Store(map[], map[]), b, m1), b);
      Unread(View(BoxOf(WithMessage(Deleted(st, b), b, m2), b))) == []
  {}
}
