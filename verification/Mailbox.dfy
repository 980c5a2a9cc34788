/** The in-memory mail store of the bus: messages in lists, read status as sets of indices. */
module Mailbox {
  import opened Outcomes

  /** A stored message; `sentAt` is None when its date cannot be read. */
  datatype Message<E> = Message(body: E, sentAt: Option<int>)

  datatype Box<E> = Box(msgs: seq<Message<E>>, seen: set<nat>)

  // ---------- One mailbox as a list of flagged messages ----------

  datatype Flagged<E> = Flagged(msg: Message<E>, read: bool)

  function View<E>(box: Box<E>): seq<Flagged<E>> {
    seq(|box.msgs|, i requires 0 <= i < |box.msgs| => Flagged(box.msgs[i], i in box.seen))
  }

  predicate Expired<E>(m: Message<E>, cutoff: int) {
    m.sentAt.Some? && m.sentAt.value < cutoff
  }

  /** Drop the messages older than the cutoff, read or not. */
  function Recent<E>(view: seq<Flagged<E>>, cutoff: int): seq<Flagged<E>> {
    if view == [] then []
    else
      var n := |view| - 1;
      Recent(view[..n], cutoff) + if Expired(view[n].msg, cutoff) then [] else [view[n]]
  }

  function Unread<E>(view: seq<Flagged<E>>): seq<E> {
    if view == [] then []
    else
      var n := |view| - 1;
      Unread(view[..n]) + if view[n].read then [] else [view[n].msg.body]
  }

  lemma UnreadNothing<E>(box: Box<E>)
    ensures |View(box)| == |box.msgs| && View(box)[..0] == [] && Unread<E>([]) == []
  {}

  lemma UnreadStep<E>(box: Box<E>, i: nat)
    requires i < |box.msgs|
    ensures |View(box)| == |box.msgs|
    ensures Unread(View(box)[..i + 1]) == Unread(View(box)[..i]) + if i in box.seen then [] else [box.msgs[i].body]
  {
    var view := View(box);
    assert view[..i + 1][..i] == view[..i];
  }

  // ---------- The operations on one mailbox ----------

  function Appended<E>(box: Box<E>, m: Message<E>): Box<E> {
    box.(msgs := box.msgs + [m])
  }

  function UpTo(n: nat): (r: set<nat>)
    ensures forall i: nat :: i in r <==> i < n
  {
    if n == 0 then {} else UpTo(n - 1) + {n - 1}
  }

  function AllRead<E>(box: Box<E>): Box<E> {
    box.(seen := box.seen + UpTo(|box.msgs|))
  }

  function Unzip<E>(view: seq<Flagged<E>>): Box<E> {
    Box(seq(|view|, i requires 0 <= i < |view| => view[i].msg), set i: nat | i < |view| && view[i].read)
  }

  /** The loop of a fetch: it collects the unread messages and marks them. */
  method CollectUnseen<E>(box: Box<E>) returns (result: seq<E>, flags: set<nat>)
    ensures result == Unread(View(box))
    ensures flags == box.seen + UpTo(|box.msgs|)
  {
    hide View, Unread;
    ghost var view := View(box);
    UnreadNothing(box);
    result, flags := [], box.seen;
    for i := 0 to |box.msgs|
      invariant result == Unread(view[..i])
      invariant flags == box.seen + UpTo(i)
    {
      UnreadStep(box, i);
      if i !in flags {
        result := result + [box.msgs[i].body];
        flags := flags + {i};
      }
    }
    assert view[..|box.msgs|] == view;
  }

  /** The mailbox is rebuilt only when something is purged. */
  function Purged<E>(box: Box<E>, cutoff: int): Box<E> {
    var kept := Recent(View(box), cutoff);
    if |kept| == |box.msgs| then box else Unzip(kept)
  }

  /** The program's two index loops: one picks the messages to keep, one renumbers the seen set. */
  method PurgeBox<E>(box: Box<E>, cutoff: int) returns (r: Box<E>, purged: nat)
    ensures r == Purged(box, cutoff)
    ensures purged == |box.msgs| - |r.msgs|
    ensures forall m :: m in r.msgs <==> m in box.msgs && (m.sentAt.None? || m.sentAt.value >= cutoff)
  {
    hide Recent, Unzip, View, Purged;
    var n := |box.msgs|;
    NothingKept<E>(cutoff);
    var keptMsgs: seq<Message<E>> := [];
    var keptOld: set<nat> := {};
    ghost var view := View(box);
    assert |view| == n && view[..0] == [] by { ViewLength(box); }
    for idx := 0 to n
      invariant keptMsgs == Unzip(Recent(view[..idx], cutoff)).msgs
      invariant forall i: nat :: i in keptOld <==> i < idx && !Expired(box.msgs[i], cutoff)
    {
      KeepStep(box, idx, cutoff);
      if !Expired(box.msgs[idx], cutoff) {
        keptOld := keptOld + {idx};
        keptMsgs := keptMsgs + [box.msgs[idx]];
      }
    }
    assert view[..n] == view;
    RecentShorter(view, cutoff);
    PurgeKeepsRecent(box, cutoff);
    PurgedIs(box, cutoff);
    purged := n - |keptMsgs|;
    if purged == 0 { return box, 0; }
    var newSeen: set<nat> := {};
    var newIdx := 0;
    for idx := 0 to n
      invariant newIdx == |Recent(view[..idx], cutoff)|
      invariant newSeen == Unzip(Recent(view[..idx], cutoff)).seen
    {
      KeepStep(box, idx, cutoff);
      if idx in keptOld {
        if idx in box.seen { newSeen := newSeen + {newIdx}; }
        newIdx := newIdx + 1;
      }
    }
    r := Box(keptMsgs, newSeen);
  }

  lemma ViewLength<E>(box: Box<E>)
    ensures |View(box)| == |box.msgs|
  {}

  lemma NothingKept<E>(cutoff: int)
    ensures Recent<E>([], cutoff) == [] && Unzip<E>([]) == Box([], {})
  {}

  /** One more message, kept with its flag unless it is expired. */
  lemma KeepStep<E>(box: Box<E>, idx: nat, cutoff: int)
    requires idx < |box.msgs|
    ensures
      var before, after := Recent(View(box)[..idx], cutoff), Recent(View(box)[..idx + 1], cutoff);
      if Expired(box.msgs[idx], cutoff) then after == before
      else
        && |after| == |before| + 1 && Unzip(after).msgs == Unzip(before).msgs + [box.msgs[idx]]
        && Unzip(after).seen == Unzip(before).seen + if idx in box.seen then {|before|} else {}
  {
    var view := View(box);
    assert view[..idx + 1][..idx] == view[..idx] && view[..idx + 1][idx] == view[idx];
  }

  lemma PurgedIs<E>(box: Box<E>, cutoff: int)
    ensures
      var kept := Recent(View(box), cutoff);
      && Purged(box, cutoff) == (if |kept| == |box.msgs| then box else Unzip(kept)) && |Unzip(kept).msgs| == |kept|
  {
    hide Recent, View;
  }

  lemma {:induction false} RecentShorter<E>(view: seq<Flagged<E>>, cutoff: int)
    ensures |Recent(view, cutoff)| <= |view|
  {
    if view != [] { RecentShorter(view[..|view| - 1], cutoff); }
  }

  lemma {:induction false} NothingExpired<E>(view: seq<Flagged<E>>, cutoff: int)
    requires |Recent(view, cutoff)| == |view|
    ensures Recent(view, cutoff) == view
  {
    if view != [] {
      var n := |view| - 1;
      RecentShorter(view[..n], cutoff);
      NothingExpired(view[..n], cutoff);
      assert view[..n] + [view[n]] == view;
    }
  }

  lemma {:induction false} RecentMember<E>(view: seq<Flagged<E>>, cutoff: int, x: Flagged<E>)
    ensures x in Recent(view, cutoff) <==> x in view && !Expired(x.msg, cutoff)
  {
    if view != [] {
      var n := |view| - 1;
      RecentMember(view[..n], cutoff, x);
      assert view == view[..n] + [view[n]];
    }
  }

  /** Purging refines filtering: on the list of flagged messages it drops exactly the
    * expired ones and keeps the order and every flag. */
  lemma PurgeRefinesFilter<E>(box: Box<E>, cutoff: int)
    ensures View(Purged(box, cutoff)) == Recent(View(box), cutoff)
  {
    if |Recent(View(box), cutoff)| == |box.msgs| { NothingExpired(View(box), cutoff); }
  }

  /** With the comparison written out: a flagged message is there after a purge exactly when
    * it was there before and its date cannot be read or is not before the cutoff. */
  lemma PurgeKeepsRecent<E>(box: Box<E>, cutoff: int)
    ensures forall f :: f in View(Purged(box, cutoff)) <==>
      f in View(box) && (f.msg.sentAt.None? || f.msg.sentAt.value >= cutoff)
    ensures forall m :: m in Purged(box, cutoff).msgs <==>
      m in box.msgs && (m.sentAt.None? || m.sentAt.value >= cutoff)
  {
    PurgeRefinesFilter(box, cutoff);
    forall f ensures f in View(Purged(box, cutoff)) <==> f in View(box) && (f.msg.sentAt.None? || f.msg.sentAt.value >= cutoff) {
      RecentMember(View(box), cutoff, f);
    }
    hide Purged, Recent;
    forall m ensures m in Purged(box, cutoff).msgs <==> m in box.msgs && (m.sentAt.None? || m.sentAt.value >= cutoff) {
      MessageInView(box, m);
      MessageInView(Purged(box, cutoff), m);
    }
  }

  lemma MessageInView<E>(box: Box<E>, m: Message<E>)
    ensures m in box.msgs <==> exists f :: f in View(box) && f.msg == m
  {
    if i :| 0 <= i < |box.msgs| && box.msgs[i] == m { assert View(box)[i].msg == m && View(box)[i] in View(box); }
    if f :| f in View(box) && f.msg == m {
      var i :| 0 <= i < |View(box)| && View(box)[i] == f;
      assert box.msgs[i] == m;
    }
  }

  /** A purge leaves a mailbox as it is exactly when no date in it is before the cutoff. */
  lemma PurgeChangesNothingIff<E>(box: Box<E>, cutoff: int)
    ensures Purged(box, cutoff) == box <==> forall m :: m in box.msgs && m.sentAt.Some? ==> m.sentAt.value >= cutoff
  {
    PurgeKeepsRecent(box, cutoff);
    if forall m :: m in box.msgs && m.sentAt.Some? ==> m.sentAt.value >= cutoff { NothingIsOld(View(box), cutoff); }
  }

  lemma {:induction false} NothingIsOld<E>(view: seq<Flagged<E>>, cutoff: int)
    requires forall i :: 0 <= i < |view| ==> view[i].msg.sentAt.None? || view[i].msg.sentAt.value >= cutoff
    ensures |Recent(view, cutoff)| == |view|
  {
    if view != [] { NothingIsOld(view[..|view| - 1], cutoff); }
  }

  lemma {:induction false} RecentTwice<E>(view: seq<Flagged<E>>, c1: int, c2: int)
    requires c1 <= c2
    ensures Recent(Recent(view, c1), c2) == Recent(view, c2)
  {
    if view != [] {
      var n := |view| - 1;
      RecentTwice(view[..n], c1, c2);
      var front := Recent(view[..n], c1);
      if !Expired(view[n].msg, c1) {
        assert (front + [view[n]])[..|front|] == front;
      } else {
        assert front + [] == front;
      }
    }
  }

  /** A purge followed by one with a later cutoff leaves what the later one alone leaves. */
  lemma PurgeTwice<E>(box: Box<E>, c1: int, c2: int)
    requires c1 <= c2
    ensures View(Purged(Purged(box, c1), c2)) == View(Purged(box, c2))
  {
    PurgeRefinesFilter(box, c1);
    PurgeRefinesFilter(Purged(box, c1), c2);
    PurgeRefinesFilter(box, c2);
    RecentTwice(View(box), c1, c2);
  }

  // ---------- The whole store ----------

  datatype Store<E> = Store(boxes: map<string, seq<Message<E>>>, seen: map<string, set<nat>>)

  function BoxOf<E>(st: Store<E>, b: string): Box<E> {
    Box(if b in st.boxes then st.boxes[b] else [], if b in st.seen then st.seen[b] else {})
  }

  function WithBox<E>(st: Store<E>, b: string, box: Box<E>): Store<E> {
    Store(st.boxes[b := box.msgs], st.seen[b := box.seen])
  }

  function Created<E>(st: Store<E>, b: string): Store<E> {
    st.(boxes := st.boxes[b := BoxOf(st, b).msgs])
  }

  function Deleted<E>(st: Store<E>, b: string): Store<E> {
    st.(boxes := st.boxes - {b})
  }

  function WithMessage<E>(st: Store<E>, b: string, m: Message<E>): Store<E> {
    st.(boxes := st.boxes[b := Appended(BoxOf(st, b), m).msgs])
  }

  function Fetched<E>(st: Store<E>, b: string): Store<E> {
    WithBox(st, b, AllRead(BoxOf(st, b)))
  }

  /** The store with the named mailboxes replaced. */
  function Replaced<E>(st: Store<E>, names: set<string>, after: map<string, Box<E>>): Store<E>
    requires names <= after.Keys
  {
    Store(map b | b in st.boxes :: if b in names then after[b].msgs else st.boxes[b],
          map b | b in st.seen.Keys + names :: if b in names then after[b].seen else st.seen[b])
  }

  function PurgedBoxes<E>(st: Store<E>, cutoff: int): map<string, Box<E>> {
    map b | b in st.boxes :: Purged(BoxOf(st, b), cutoff)
  }

  function PurgedStore<E>(st: Store<E>, cutoff: int): Store<E> {
    Replaced(st, st.boxes.Keys, PurgedBoxes(st, cutoff))
  }

  /** The number of messages in the given mailboxes. */
  ghost function Total<E>(boxes: map<string, seq<Message<E>>>, keys: set<string>): nat
    requires keys <= boxes.Keys
  {
    if keys == {} then 0 else var k :| k in keys; |boxes[k]| + Total(boxes, keys - {k})
  }

  lemma {:induction false} TotalSplit<E>(boxes: map<string, seq<Message<E>>>, keys: set<string>, k: string)
    requires keys <= boxes.Keys && k in keys
    ensures Total(boxes, keys) == |boxes[k]| + Total(boxes, keys - {k})
  {
    var first :| first in keys && Total(boxes, keys) == |boxes[first]| + Total(boxes, keys - {first});
    if first != k {
      TotalSplit(boxes, keys - {first}, k);
      TotalSplit(boxes, keys - {k}, first);
      assert keys - {first} - {k} == keys - {k} - {first};
    }
  }

  lemma {:induction false} TotalFrame<E>(boxes: map<string, seq<Message<E>>>, boxes': map<string, seq<Message<E>>>, keys: set<string>)
    requires keys <= boxes.Keys && keys <= boxes'.Keys
    requires forall k :: k in keys ==> boxes[k] == boxes'[k]
    ensures Total(boxes, keys) == Total(boxes', keys)
  {
    if keys != {} {
      var k :| k in keys;
      TotalSplit(boxes, keys, k);
      TotalSplit(boxes', keys, k);
      TotalFrame(boxes, boxes', keys - {k});
    }
  }

  lemma ReplaceOneMore<E>(st: Store<E>, done: set<string>, b: string, after: map<string, Box<E>>)
    requires done <= after.Keys == st.boxes.Keys && b in after && b !in done
    ensures BoxOf(Replaced(st, done, after), b) == BoxOf(st, b)
    ensures Replaced(st, done + {b}, after) == WithBox(Replaced(st, done, after), b, after[b])
  {
    var x, y := Replaced(st, done, after), Replaced(st, done + {b}, after);
    assert y.boxes == x.boxes[b := after[b].msgs];
    assert y.seen == x.seen[b := after[b].seen];
  }

  lemma TotalOneMore<E>(start: map<string, seq<Message<E>>>, before: map<string, seq<Message<E>>>,
                        done: set<string>, b: string, msgs: seq<Message<E>>)
    requires done <= start.Keys && b in start && b !in done && before.Keys == start.Keys
    ensures Total(start, done + {b}) - Total(before[b := msgs], done + {b}) ==
      Total(start, done) - Total(before, done) + |start[b]| - |msgs|
  {
    var after := before[b := msgs];
    TotalFrame(before, after, done);
    TotalSplit(start, done + {b}, b);
    TotalSplit(after, done + {b}, b);
    assert done + {b} - {b} == done;
  }

  /** Purging the store twice leaves each mailbox as the later purge alone leaves it. */
  lemma PurgeStoreTwice<E>(st: Store<E>, c1: int, c2: int, b: string)
    requires c1 <= c2
    ensures View(BoxOf(PurgedStore(PurgedStore(st, c1), c2), b)) == View(BoxOf(PurgedStore(st, c2), b))
  {
    PurgedBoxOf(st, c1, b);
    PurgedBoxOf(PurgedStore(st, c1), c2, b);
    PurgedBoxOf(st, c2, b);
    hide PurgedStore, Purged, View, BoxOf;
    if b in st.boxes { PurgeTwice(BoxOf(st, b), c1, c2); }
  }

  /** So the two totals add up to the total of the later purge alone. */
  lemma PurgeTotalsAdd<E>(st: Store<E>, c1: int, c2: int)
    requires c1 <= c2
    ensures
      var keys, once, twice := st.boxes.Keys, PurgedStore(st, c2), PurgedStore(PurgedStore(st, c1), c2);
      && once.boxes.Keys == twice.boxes.Keys == keys
      && Total(once.boxes, keys) == Total(twice.boxes, keys)
  {
    hide PurgedStore, View, Total;
    PurgedBoxOf(st, c2, "");
    PurgedBoxOf(st, c1, "");
    PurgedBoxOf(PurgedStore(st, c1), c2, "");
    var once, twice := PurgedStore(st, c2), PurgedStore(PurgedStore(st, c1), c2);
    forall b | b in st.boxes ensures once.boxes[b] == twice.boxes[b] {
      PurgeStoreTwice(st, c1, c2, b);
      SameViewSameMessages(BoxOf(once, b), BoxOf(twice, b));
    }
    TotalFrame(once.boxes, twice.boxes, st.boxes.Keys);
  }

  lemma SameViewSameMessages<E>(x: Box<E>, y: Box<E>)
    requires View(x) == View(y)
    ensures x.msgs == y.msgs
  {
    forall i | 0 <= i < |x.msgs| ensures x.msgs[i] == y.msgs[i] {
      assert View(x)[i].msg == View(y)[i].msg;
    }
  }

  lemma PurgedBoxOf<E>(st: Store<E>, cutoff: int, b: string)
    ensures PurgedStore(st, cutoff).boxes.Keys == st.boxes.Keys
    ensures BoxOf(PurgedStore(st, cutoff), b) == if b in st.boxes then Purged(BoxOf(st, b), cutoff) else BoxOf(st, b)
  {
    hide Purged;
  }

  /** A purge of the store takes nothing, and its total is 0, exactly when no readable date
    * is before the cutoff. */
  lemma PurgeTakesNothingIff<E>(st: Store<E>, cutoff: int)
    ensures
      var keys, after := st.boxes.Keys, PurgedStore(st, cutoff);
      && after.boxes.Keys == keys
      && (Total(st.boxes, keys) - Total(after.boxes, keys) == 0 <==>
            forall b, m :: b in keys && m in st.boxes[b] && m.sentAt.Some? ==> m.sentAt.value >= cutoff)
  {
    PurgedBoxOf(st, cutoff, "");
    var after := PurgedStore(st, cutoff);
    hide PurgedStore, Total;
    forall b | b in st.boxes
      ensures |after.boxes[b]| <= |st.boxes[b]|
      ensures |after.boxes[b]| == |st.boxes[b]| <==> forall m :: m in st.boxes[b] && m.sentAt.Some? ==> m.sentAt.value >= cutoff
    {
      PurgedBoxOf(st, cutoff, b);
      assert BoxOf(after, b).msgs == after.boxes[b];
      PurgedLength(BoxOf(st, b), cutoff);
    }
    TotalCompare(after.boxes, st.boxes, st.boxes.Keys);
  }

  lemma PurgedLength<E>(box: Box<E>, cutoff: int)
    ensures |Purged(box, cutoff).msgs| <= |box.msgs|
    ensures |Purged(box, cutoff).msgs| == |box.msgs| <==> forall m :: m in box.msgs && m.sentAt.Some? ==> m.sentAt.value >= cutoff
  {
    RecentShorter(View(box), cutoff);
    PurgeChangesNothingIff(box, cutoff);
  }

  lemma {:induction false} TotalCompare<E>(less: map<string, seq<Message<E>>>, more: map<string, seq<Message<E>>>, keys: set<string>)
    requires keys <= less.Keys && keys <= more.Keys && forall k :: k in keys ==> |less[k]| <= |more[k]|
    ensures Total(less, keys) <= Total(more, keys)
    ensures Total(less, keys) == Total(more, keys) <==> forall k :: k in keys ==> |less[k]| == |more[k]|
  {
    if keys != {} {
      var k :| k in keys;
      TotalSplit(less, keys, k);
      TotalSplit(more, keys, k);
      TotalCompare(less, more, keys - {k});
    }
  }

  /** The server facade; both dictionaries create missing entries when they are read. */
  class IMAPServer<E> {
    var mailboxes: map<string, seq<Message<E>>>
    var seen: map<string, set<nat>>

    constructor ()
      ensures State() == Store(map[], map[])
    {
      mailboxes, seen := map[], map[];
    }

    function State(): Store<E>
      reads this
    {
      Store(mailboxes, seen)
    }

    method CreateMailbox(b: string)
      modifies this
      ensures State() == Created(old(State()), b)
    {
      if b !in mailboxes { mailboxes := mailboxes[b := []]; }
      assert mailboxes == old(mailboxes)[b := BoxOf(old(State()), b).msgs];
    }

    method DeleteMailbox(b: string)
      modifies this
      ensures State() == Deleted(old(State()), b)
    {
      mailboxes := mailboxes - {b};
    }

    method Append(b: string, m: Message<E>)
      modifies this
      ensures State() == WithMessage(old(State()), b, m)
    {
      if b !in mailboxes { mailboxes := mailboxes[b := []]; }
      mailboxes := mailboxes[b := mailboxes[b] + [m]];
    }

    method UnseenCount(b: string) returns (count: nat)
      modifies this
      ensures State() == WithBox(old(State()), b, BoxOf(old(State()), b))
      ensures count == |Unread(View(BoxOf(State(), b)))|
    {
      if b !in mailboxes { mailboxes := mailboxes[b := []]; }
      if b !in seen { seen := seen[b := {}]; }
      assert mailboxes == old(mailboxes)[b := BoxOf(old(State()), b).msgs];
      assert seen == old(seen)[b := BoxOf(old(State()), b).seen];
      var msgs, flags := mailboxes[b], seen[b];
      ghost var view := View(BoxOf(State(), b));
      count := 0;
      for i := 0 to |msgs|
        invariant count == |Unread(view[..i])|
      {
        assert view[..i + 1][..i] == view[..i];
        if i !in flags { count := count + 1; }
      }
      assert view[..|msgs|] == view;
    }

    method FetchUnseen(b: string) returns (result: seq<E>)
      modifies this
      ensures State() == Fetched(old(State()), b)
      ensures result == Unread(View(BoxOf(old(State()), b)))
    {
      if b !in mailboxes { mailboxes := mailboxes[b := []]; }
      if b !in seen { seen := seen[b := {}]; }
      var flags;
      result, flags := CollectUnseen(Box(mailboxes[b], seen[b]));
      seen := seen[b := flags];
      assert mailboxes == Fetched(old(State()), b).boxes;
    }

    method PurgeOldMessages(cutoff: int) returns (total: nat)
      modifies this
      ensures State() == PurgedStore(old(State()), cutoff)
      ensures total == Total(old(mailboxes), old(mailboxes).Keys) - Total(mailboxes, mailboxes.Keys)
      ensures total == 0 <==>
        forall b, m :: b in old(mailboxes) && m in old(mailboxes)[b] && m.sentAt.Some? ==> m.sentAt.value >= cutoff
    {
      hide Purged, Total;
      total := 0;
      ghost var st := State();
      ghost var after := PurgedBoxes(st, cutoff);
      ghost var done: set<string> := {};
      var todo := mailboxes.Keys;
      assert mailboxes == Replaced(st, {}, after).boxes && seen == Replaced(st, {}, after).seen;
      while todo != {}
        invariant todo + done == st.boxes.Keys && todo !! done
        invariant State() == Replaced(st, done, after)
        invariant total == Total(st.boxes, done) - Total(mailboxes, done)
      {
        var b :| b in todo;
        todo := todo - {b};
        ghost var before := mailboxes;
        ReplaceOneMore(st, done, b, after);
        TotalOneMore(st.boxes, before, done, b, after[b].msgs);
        var purged := PurgeMailbox(b, cutoff);
        total := total + purged;
        done := done + {b};
      }
      assert done == st.boxes.Keys;
      PurgeTakesNothingIff(st, cutoff);
    }

    /** The body of the purge loop for one mailbox. */
    method PurgeMailbox(b: string, cutoff: int) returns (purged: nat)
      requires b in mailboxes
      modifies this
      ensures State() == WithBox(old(State()), b, Purged(BoxOf(old(State()), b), cutoff))
      ensures purged == |old(mailboxes)[b]| - |mailboxes[b]|
    {
      if b !in seen { seen := seen[b := {}]; }
      var box;
      box, purged := PurgeBox(Box(mailboxes[b], seen[b]), cutoff);
      mailboxes, seen := mailboxes[b := box.msgs], seen[b := box.seen];
      assert seen == old(seen)[b := box.seen];
    }
  }
}
