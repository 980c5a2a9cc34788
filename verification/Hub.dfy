/** The WebSocket session hub: subscriber lists, the capped history of each session,
  * and the connections that join, switch and leave. Every section that the program
  * runs under its client lock is one atomic step here. */
module Hub {
  import opened Counting
  import opened Addresses

  type Client = nat     // one connection: its queue and its websocket id
  type Msg = string     // the JSON text of a message

  const HISTORY_CAP := 50
  const SHARED := "comms://shared"

  // ---------- Session names ----------

  function CanonicalSessionId(sid: string): (r: string) {
    if sid == "" then SHARED
    else if SCHEME <= sid then sid
    else SCHEME + sid
  }

  // The bare name an agent may use for a session.
  function BareName(sid: string): string {
    if sid == "" then "shared" else if SCHEME <= sid then sid[|SCHEME|..] else sid
  }

  /** Two names reach the same session exactly when they agree up to the scheme
    * and the default, and a name that is already canonical stays as it is. */
  lemma CanonicalNames(a: string, b: string)
    ensures CanonicalSessionId(a) == CanonicalSessionId(b) <==> BareName(a) == BareName(b)
    ensures CanonicalSessionId(CanonicalSessionId(a)) == CanonicalSessionId(a)
    ensures SCHEME <= CanonicalSessionId(a)
  {}

  // ---------- The shared tables ----------

  /** The three module-level dictionaries that the client lock protects. */
  datatype Tables = Tables(
    clients: map<string, seq<Client>>,
    home: map<Client, string>,
    history: map<string, seq<Msg>>)

  function Get<T>(m: map<string, seq<T>>, s: string): seq<T> {
    if s in m then m[s] else []
  }

  function WithoutClient(m: map<string, seq<Client>>, s: string, c: Client): map<string, seq<Client>> {
    if s in m && c in m[s] then m[s := RemoveFirst(m[s], c)] else m
  }

  function WithMessage(t: Tables, s: string, m: Msg): Tables {
    var grown := Get(t.history, s) + [m];
    t.(history := t.history[s := if |grown| > HISTORY_CAP then grown[1..] else grown])
  }

  function WithSubscriber(t: Tables, c: Client, s: string): Tables {
    t.(clients := t.clients[s := Get(t.clients, s) + [c]], home := t.home[c := s])
  }

  function Switched(t: Tables, c: Client, from: string, to: string): Tables {
    var rest := WithoutClient(t.clients, from, c);
    t.(clients := rest[to := Get(rest, to) + [c]], home := t.home[c := to])
  }

  function Removed(t: Tables, c: Client, from: string): Tables {
    t.(clients := WithoutClient(t.clients, from, c), home := t.home - {c})
  }

  /** All queues, session after session, for one order of the sessions. */
  function AllQueues(m: map<string, seq<Client>>, order: seq<string>): seq<Client> {
    if order == [] then [] else Get(m, order[0]) + AllQueues(m, order[1..])
  }

  ghost predicate Enumerates(order: seq<string>, s: set<string>) {
    && (forall x :: x in order <==> x in s)
    && (forall i, j :: 0 <= i < j < |order| ==> order[i] != order[j])
  }

  /** The hub as the program keeps it: dictionaries whose entries are replaced in place.
    * Each method is the body of one locked section. */
  class WebHub {
    var sessionClients: map<string, seq<Client>>
    var clientSession: map<Client, string>
    var sessionHistory: map<string, seq<Msg>>

    constructor ()
      ensures View() == Tables(map[], map[], map[])
    {
      sessionClients, clientSession, sessionHistory := map[], map[], map[];
    }

    function View(): Tables
      reads this
    {
      Tables(sessionClients, clientSession, sessionHistory)
    }

    method AddToHistory(s: string, m: Msg)
      modifies this
      ensures View() == WithMessage(old(View()), s, m)
    {
      if s !in sessionHistory {
        sessionHistory := sessionHistory[s := []];
      }
      sessionHistory := sessionHistory[s := sessionHistory[s] + [m]];
      if |sessionHistory[s]| > HISTORY_CAP {
        sessionHistory := sessionHistory[s := sessionHistory[s][1..]];
      }
    }

    method Subscribe(c: Client, s: string)
      modifies this
      ensures View() == WithSubscriber(old(View()), c, s)
    {
      if s !in sessionClients {
        sessionClients := sessionClients[s := []];
      }
      sessionClients := sessionClients[s := sessionClients[s] + [c]];
      clientSession := clientSession[c := s];
    }

    method SwitchSession(c: Client, from: string, to: string) returns (past: seq<Msg>, subscribers: nat)
      modifies this
      ensures View() == Switched(old(View()), c, from, to)
      ensures past == Get(old(View()).history, to)
      ensures subscribers == |Get(View().clients, to)|
    {
      if from in sessionClients && c in sessionClients[from] {
        sessionClients := sessionClients[from := RemoveFirst(sessionClients[from], c)];
      }
      if to !in sessionClients {
        sessionClients := sessionClients[to := []];
      }
      sessionClients := sessionClients[to := sessionClients[to] + [c]];
      clientSession := clientSession[c := to];
      past := Get(sessionHistory, to);
      subscribers := |Get(sessionClients, to)|;
    }

    method Disconnect(c: Client, from: string) returns (remaining: nat)
      modifies this
      ensures View() == Removed(old(View()), c, from)
      ensures remaining == |Get(View().clients, from)|
    {
      if from in sessionClients && c in sessionClients[from] {
        sessionClients := sessionClients[from := RemoveFirst(sessionClients[from], c)];
      }
      clientSession := clientSession - {c};
      remaining := |Get(sessionClients, from)|;
    }

    /** The subscriber snapshot of an all-session broadcast. */
    method SnapshotAll() returns (queues: seq<Client>)
      ensures exists order :: Enumerates(order, sessionClients.Keys) && queues == AllQueues(sessionClients, order)
    {
      queues := [];
      ghost var order: seq<string> := [];
      var todo := sessionClients.Keys;
      while todo != {}
        invariant todo <= sessionClients.Keys
        invariant Enumerates(order, sessionClients.Keys - todo)
        invariant queues == AllQueues(sessionClients, order)
      {
        var s :| s in todo;
        AllQueuesSnoc(sessionClients, order, s);
        queues := queues + sessionClients[s];
        order := order + [s];
        todo := todo - {s};
      }
      assert sessionClients.Keys - todo == sessionClients.Keys;
    }
  }

  lemma {:induction false} AllQueuesSnoc(m: map<string, seq<Client>>, order: seq<string>, s: string)
    ensures AllQueues(m, order + [s]) == AllQueues(m, order) + Get(m, s)
  {
    hide AllQueues, Get;
    if order == [] {
      AllQueuesCons(m, s, []);
      assert [] + [s] == [s] + [];
    } else {
      var first, rest := order[0], order[1..];
      AllQueuesSnoc(m, rest, s);
      assert order == [first] + rest && order + [s] == [first] + (rest + [s]);
      AllQueuesCons(m, first, rest);
      AllQueuesCons(m, first, rest + [s]);
      assert Get(m, first) + (AllQueues(m, rest) + Get(m, s)) == Get(m, first) + AllQueues(m, rest) + Get(m, s);
    }
  }

  lemma AllQueuesCons(m: map<string, seq<Client>>, first: string, rest: seq<string>)
    ensures AllQueues(m, [first] + rest) == Get(m, first) + AllQueues(m, rest)
    ensures AllQueues(m, []) == []
  {
    assert ([first] + rest)[1..] == rest;
  }

  // ---------- Connections and runs ----------

  /** What was put on a queue. A delivery names the recording it belongs to:
    * the session and the position in that session's full log. */
  datatype Delivery = Delivery(session: string, index: nat, msg: Msg) | Notice(msg: Msg)

  /** Where a connection stands. `mark` is the length the session's log had when the
    * client subscribed, and later when it took its history snapshot. */
  datatype Phase =
    | Subscribed(mark: nat)
    | Joined(mark: nat, snapshot: seq<Msg>, greeted: bool)
    | Left
    | Abandoned

  datatype Conn = Conn(session: string, phase: Phase, inbox: seq<Delivery>)

  /** The tables, the connections, the full log of each session, and the recordings
    * whose broadcast has already taken its subscriber snapshot. */
  datatype Sys = Sys(t: Tables, conns: map<Client, Conn>, log: map<string, seq<Msg>>, cast: set<(string, nat)>)

  /** One step of one thread or connection. `Abandon` ends a connection without the
    * clean-up section: its greeting failed, or its handler was cancelled and the receiving
    * task, which then runs on, has come to its end. */
  datatype Op =
    | Connect(c: Client)
    | ReadHistory(c: Client)
    | Greet(c: Client)
    | Abandon(c: Client)
    | Join(c: Client, s: string)
    | Leave(c: Client)
    | Record(s: string, m: Msg)
    | Cast(s: string, i: nat)
    | CastAll(m: Msg, order: seq<string>)

  function Init(): Sys {
    Sys(Tables(map[], map[], map[]), map[], map[], {})
  }

  function Put(conns: map<Client, Conn>, c: Client, d: Delivery): map<Client, Conn> {
    if c in conns then conns[c := conns[c].(inbox := conns[c].inbox + [d])] else conns
  }

  function Deliver(conns: map<Client, Conn>, queues: seq<Client>, d: Delivery): map<Client, Conn> {
    if queues == [] then conns else Deliver(Put(conns, queues[0], d), queues[1..], d)
  }

  predicate IsActive(y: Sys, c: Client) {
    c in y.conns && y.conns[c].phase.Joined? && y.conns[c].phase.greeted
  }

  function At(y: Sys, c: Client, session: string, phase: Phase): map<Client, Conn>
    requires c in y.conns
  {
    y.conns[c := y.conns[c].(session := session, phase := phase)]
  }

  ghost function Step(y: Sys, op: Op): Sys {
    match op
    case Connect(c) =>
      if c in y.conns then y
      else y.(t := WithSubscriber(y.t, c, SHARED),
              conns := y.conns[c := Conn(SHARED, Subscribed(|Get(y.log, SHARED)|), [])])
    case ReadHistory(c) =>
      if c !in y.conns || !y.conns[c].phase.Subscribed? then y
      else var s := y.conns[c].session;
        y.(conns := At(y, c, s, Joined(|Get(y.log, s)|, Get(y.t.history, s), false)))
    case Greet(c) =>
      if c !in y.conns || !y.conns[c].phase.Joined? then y
      else y.(conns := At(y, c, y.conns[c].session, y.conns[c].phase.(greeted := true)))
    case Abandon(c) =>
      if c !in y.conns || !y.conns[c].phase.Joined? then y
      else y.(conns := At(y, c, y.conns[c].session, Abandoned))
    case Join(c, s) =>
      if !IsActive(y, c) then y
      else y.(t := Switched(y.t, c, y.conns[c].session, s),
              conns := At(y, c, s, Joined(|Get(y.log, s)|, Get(y.t.history, s), true)))
    case Leave(c) =>
      if !IsActive(y, c) then y
      else y.(t := Removed(y.t, c, y.conns[c].session), conns := At(y, c, y.conns[c].session, Left))
    case Record(s, m) =>
      y.(t := WithMessage(y.t, s, m), log := y.log[s := Get(y.log, s) + [m]])
    case Cast(s, i) =>
      if i >= |Get(y.log, s)| then y
      else y.(conns := Deliver(y.conns, Get(y.t.clients, s), Delivery(s, i, Get(y.log, s)[i])),
              cast := y.cast + {(s, i)})
    case CastAll(m, order) =>
      if !Enumerates(order, y.t.clients.Keys) then y
      else y.(conns := Deliver(y.conns, AllQueues(y.t.clients, order), Notice(m)))
  }

  ghost function Run(ops: seq<Op>): Sys {
    if ops == [] then Init() else Step(Run(ops[..|ops| - 1]), ops[|ops| - 1])
  }

  // ---------- Delivery ----------

  lemma {:induction false} DeliverKeys(conns: map<Client, Conn>, queues: seq<Client>, d: Delivery)
    ensures Deliver(conns, queues, d).Keys == conns.Keys
  {
    if queues != [] { DeliverKeys(Put(conns, queues[0], d), queues[1..], d); }
  }

  /** Delivering appends the payload to a queue once for every occurrence, and changes nothing else. */
  lemma {:induction false} DeliverCounts(conns: map<Client, Conn>, queues: seq<Client>, d: Delivery, c: Client)
    requires c in conns
    ensures c in Deliver(conns, queues, d)
    ensures Deliver(conns, queues, d)[c] == conns[c].(inbox := conns[c].inbox + Copies(Count(queues, c), d))
  {
    if queues == [] {
      assert conns[c].inbox + Copies(0, d) == conns[c].inbox;
    } else {
      var next := Put(conns, queues[0], d);
      DeliverCounts(next, queues[1..], d, c);
      var k := Count(queues[1..], c);
      if c == queues[0] {
        assert conns[c].inbox + [d] + Copies(k, d) == conns[c].inbox + Copies(k + 1, d);
      }
    }
  }

  // ---------- Membership ----------

  /** The client's queue occurs exactly once over all session lists: in session s. */
  ghost predicate Placed(m: map<string, seq<Client>>, c: Client, s: string) {
    forall u :: Count(Get(m, u), c) == if u == s then 1 else 0
  }

  ghost predicate Unlisted(m: map<string, seq<Client>>, c: Client) {
    forall u :: Count(Get(m, u), c) == 0
  }

  ghost predicate MemberOk(y: Sys, c: Client) {
    if c in y.conns && y.conns[c].phase != Left then
      Placed(y.t.clients, c, y.conns[c].session) && c in y.t.home && y.t.home[c] == y.conns[c].session
    else
      Unlisted(y.t.clients, c) && c !in y.t.home
  }

  lemma WithoutClientCounts(m: map<string, seq<Client>>, s: string, c: Client, x: Client, u: string)
    ensures Count(Get(WithoutClient(m, s, c), u), x) ==
      if u == s && x == c && c in Get(m, s) then Count(Get(m, u), x) - 1 else Count(Get(m, u), x)
  {
    if s in m && c in m[s] && u == s {
      RemoveFirstCount(m[s], c, x);
    }
  }

  lemma PlacedIn(m: map<string, seq<Client>>, c: Client, s: string)
    requires Placed(m, c, s)
    ensures c in Get(m, s)
  {
    CountIn(Get(m, s), c);
  }

  lemma SubscribeMembership(t: Tables, c: Client, s: string, x: Client, u: string)
    ensures Count(Get(WithSubscriber(t, c, s).clients, u), x) ==
      Count(Get(t.clients, u), x) + if u == s && x == c then 1 else 0
  {
    CountAppend(Get(t.clients, s), [c], x);
  }

  lemma SwitchMembership(t: Tables, c: Client, from: string, to: string, x: Client, u: string)
    requires c in Get(t.clients, from)
    ensures Count(Get(Switched(t, c, from, to).clients, u), x) ==
      Count(Get(t.clients, u), x) - (if u == from && x == c then 1 else 0) + (if u == to && x == c then 1 else 0)
  {
    WithoutClientCounts(t.clients, from, c, x, u);
    CountAppend(Get(WithoutClient(t.clients, from, c), to), [c], x);
  }

  lemma ConnectMembership(y: Sys, c: Client, x: Client)
    requires MemberOk(y, c) && MemberOk(y, x) && c !in y.conns
    ensures MemberOk(Step(y, Connect(c)), x)
  {
    var m, m' := y.t.clients, Step(y, Connect(c)).t.clients;
    forall u ensures Count(Get(m', u), x) == Count(Get(m, u), x) + if u == SHARED && x == c then 1 else 0 {
      SubscribeMembership(y.t, c, SHARED, x, u);
    }
  }

  lemma JoinMembership(y: Sys, c: Client, s: string, x: Client)
    requires MemberOk(y, c) && MemberOk(y, x) && IsActive(y, c)
    ensures MemberOk(Step(y, Join(c, s)), x)
  {
    var from, m, m' := y.conns[c].session, y.t.clients, Step(y, Join(c, s)).t.clients;
    PlacedIn(m, c, from);
    forall u ensures Count(Get(m', u), x) ==
      Count(Get(m, u), x) - (if u == from && x == c then 1 else 0) + (if u == s && x == c then 1 else 0)
    {
      SwitchMembership(y.t, c, from, s, x, u);
    }
  }

  lemma LeaveMembership(y: Sys, c: Client, x: Client)
    requires MemberOk(y, c) && MemberOk(y, x) && IsActive(y, c)
    ensures MemberOk(Step(y, Leave(c)), x)
  {
    var from, m, m' := y.conns[c].session, y.t.clients, Step(y, Leave(c)).t.clients;
    PlacedIn(m, c, from);
    forall u ensures Count(Get(m', u), x) == Count(Get(m, u), x) - if u == from && x == c then 1 else 0 {
      WithoutClientCounts(m, from, c, x, u);
    }
  }

  lemma DeliverMembership(y: Sys, queues: seq<Client>, d: Delivery, cast: set<(string, nat)>, x: Client)
    requires MemberOk(y, x)
    ensures MemberOk(y.(conns := Deliver(y.conns, queues, d), cast := cast), x)
  {
    DeliverKeys(y.conns, queues, d);
    if x in y.conns { DeliverCounts(y.conns, queues, d, x); }
  }

  lemma MembershipStep(y: Sys, op: Op, x: Client)
    requires forall c :: MemberOk(y, c)
    ensures MemberOk(Step(y, op), x)
  {
    assert MemberOk(y, x);
    match op
    case Connect(c) => if c !in y.conns { ConnectMembership(y, c, x); }
    case Join(c, s) => if IsActive(y, c) { JoinMembership(y, c, s, x); }
    case Leave(c) => if IsActive(y, c) { LeaveMembership(y, c, x); }
    case Cast(s, i) =>
      if i < |Get(y.log, s)| {
        DeliverMembership(y, Get(y.t.clients, s), Delivery(s, i, Get(y.log, s)[i]), y.cast + {(s, i)}, x);
      }
    case CastAll(m, order) => DeliverMembership(y, AllQueues(y.t.clients, order), Notice(m), y.cast, x);
    case _ =>
  }

  /** In every reachable state a connection's queue is listed exactly once, in the
    * session recorded for it, unless the connection went through the clean-up
    * section; then it is listed nowhere. */
  lemma {:induction false} Membership(ops: seq<Op>)
    ensures forall c :: MemberOk(Run(ops), c)
  {
    if ops == [] {
      assert forall c: Client :: MemberOk(Init(), c);
    } else {
      Membership(ops[..|ops| - 1]);
      forall c ensures MemberOk(Run(ops), c) {
        MembershipStep(Run(ops[..|ops| - 1]), ops[|ops| - 1], c);
      }
    }
  }

  predicate Gone(y: Sys, c: Client) {
    c in y.conns && (y.conns[c].phase == Left || y.conns[c].phase == Abandoned)
  }

  /** A finished connection is off every list exactly when neither a failed greeting nor a
    * cancellation kept it from the clean-up section. */
  lemma GoneMeansUnlisted(ops: seq<Op>, c: Client)
    requires Gone(Run(ops), c)
    ensures Unlisted(Run(ops).t.clients, c) <==> Run(ops).conns[c].phase != Abandoned
  {
    Membership(ops);
    assert MemberOk(Run(ops), c);
    if Run(ops).conns[c].phase == Abandoned {
      var u := Run(ops).conns[c].session;
      assert Count(Get(Run(ops).t.clients, u), c) == 1;
    }
  }

  /** The failing family is real: a browser that drops while it is being greeted. */
  lemma AbandonedClientStaysListed(c: Client)
    ensures
      var y := Run([Connect(c), ReadHistory(c), Abandon(c)]);
      Gone(y, c) && y.t.clients == map[SHARED := [c]] && y.t.home == map[c := SHARED]
  {
    var ops := [Connect(c), ReadHistory(c), Abandon(c)];
    assert ops[..2] == [Connect(c), ReadHistory(c)] && ops[..2][..1] == [Connect(c)] && [Connect(c)][..0] == [];
    var y1 := Step(Init(), Connect(c));
    var y2 := Step(y1, ReadHistory(c));
    assert Run([Connect(c)]) == y1;
    assert Run(ops[..2]) == y2;
    assert Run(ops) == Step(y2, Abandon(c));
    assert Get(Init().t.clients, SHARED) + [c] == [c];
    assert y1.t.clients == map[SHARED := [c]] && y1.t.home == map[c := SHARED];
  }

  lemma {:induction false} AllQueuesCount(m: map<string, seq<Client>>, order: seq<string>, c: Client, s: string)
    requires Placed(m, c, s)
    requires forall i, j :: 0 <= i < j < |order| ==> order[i] != order[j]
    ensures Count(AllQueues(m, order), c) == if s in order then 1 else 0
  {
    if order != [] {
      AllQueuesCount(m, order[1..], c, s);
      CountAppend(Get(m, order[0]), AllQueues(m, order[1..]), c);
    }
  }

  /** An all-session broadcast puts the payload exactly once on the queue of every
    * connection that is still listed, whatever the order of the sessions. */
  lemma BroadcastReachesEachOnce(ops: seq<Op>, m: Msg, order: seq<string>, c: Client)
    requires Enumerates(order, Run(ops).t.clients.Keys)
    requires c in Run(ops).conns
    ensures
      var y, z := Run(ops), Run(ops + [CastAll(m, order)]);
      c in z.conns && z.conns[c].inbox == y.conns[c].inbox + if y.conns[c].phase == Left then [] else [Notice(m)]
  {
    hide Deliver, AllQueues, MemberOk, Enumerates;
    var y := Run(ops);
    Membership(ops);
    assert (ops + [CastAll(m, order)])[..|ops|] == ops;
    var queues := AllQueues(y.t.clients, order);
    DeliverKeys(y.conns, queues, Notice(m));
    DeliverCounts(y.conns, queues, Notice(m), c);
    ListedOnce(y, order, c);
    assert Copies(0, Notice(m)) == [] && Copies(1, Notice(m)) == [Notice(m)];
  }

  lemma ListedOnce(y: Sys, order: seq<string>, c: Client)
    requires MemberOk(y, c) && c in y.conns && Enumerates(order, y.t.clients.Keys)
    ensures Count(AllQueues(y.t.clients, order), c) == if y.conns[c].phase == Left then 0 else 1
  {
    if y.conns[c].phase == Left {
      UnlistedCount(y.t.clients, order, c);
    } else {
      var s := y.conns[c].session;
      PlacedIn(y.t.clients, c, s);
      assert s in y.t.clients.Keys;
      AllQueuesCount(y.t.clients, order, c, s);
    }
  }

  lemma {:induction false} UnlistedCount(m: map<string, seq<Client>>, order: seq<string>, c: Client)
    requires Unlisted(m, c)
    ensures Count(AllQueues(m, order), c) == 0
  {
    if order != [] {
      UnlistedCount(m, order[1..], c);
      CountAppend(Get(m, order[0]), AllQueues(m, order[1..]), c);
    }
  }

  // ---------- History and delivery without gaps ----------

  function LastOnes<T>(xs: seq<T>): seq<T> {
    if |xs| > HISTORY_CAP then xs[|xs| - HISTORY_CAP..] else xs
  }

  ghost predicate HistoryOk(y: Sys) {
    forall s :: Get(y.t.history, s) == LastOnes(Get(y.log, s))
  }

  lemma HistoryStep(y: Sys, op: Op, s: string)
    requires Get(y.t.history, s) == LastOnes(Get(y.log, s))
    ensures Get(Step(y, op).t.history, s) == LastOnes(Get(Step(y, op).log, s))
  {
    hide Deliver, AllQueues, WithoutClient, Enumerates, At;
    if op.Record? && op.s == s {
      var z, grown := Step(y, op), Get(y.t.history, s) + [op.m];
      assert Get(z.log, s) == Get(y.log, s) + [op.m];
      assert Get(z.t.history, s) == if |grown| > HISTORY_CAP then grown[1..] else grown;
    }
  }

  /** Each session's history is the last min(50, n) of the n messages recorded there. */
  lemma {:induction false} HistoryIsLastFifty(ops: seq<Op>, s: string)
    ensures
      var log := Get(Run(ops).log, s);
      Get(Run(ops).t.history, s) == if |log| > 50 then log[|log| - 50..] else log
  {
    if ops != [] {
      HistoryIsLastFifty(ops[..|ops| - 1], s);
      HistoryStep(Run(ops[..|ops| - 1]), ops[|ops| - 1], s);
    }
  }

  predicate Waiting(conn: Conn) {
    conn.phase.Subscribed? || conn.phase.Joined?
  }

  /** Every broadcast in the client's session is either older than its mark or on its queue. */
  ghost predicate NoMiss(y: Sys, conn: Conn) {
    Waiting(conn) ==>
      && conn.phase.mark <= |Get(y.log, conn.session)|
      && (conn.phase.Joined? ==> conn.phase.snapshot == LastOnes(Get(y.log, conn.session)[..conn.phase.mark]))
      && forall i | (conn.session, i) in y.cast && conn.phase.mark <= i < |Get(y.log, conn.session)| ::
          Delivery(conn.session, i, Get(y.log, conn.session)[i]) in conn.inbox
  }

  ghost predicate CastLogged(y: Sys) {
    forall s, i :: (s, i) in y.cast ==> i < |Get(y.log, s)|
  }

  lemma NoMissKept(y: Sys, z: Sys, conn: Conn, conn': Conn)
    requires NoMiss(y, conn) && conn'.session == conn.session && conn'.phase == conn.phase
    requires forall d :: d in conn.inbox ==> d in conn'.inbox
    requires Get(y.log, conn.session) <= Get(z.log, conn.session)
    requires Waiting(conn) ==> forall i :: (conn.session, i) in z.cast && i < |Get(z.log, conn.session)| ==>
      ((conn.session, i) in y.cast && i < |Get(y.log, conn.session)|)
      || Delivery(conn.session, i, Get(z.log, conn.session)[i]) in conn'.inbox
    ensures NoMiss(z, conn')
  {
    if Waiting(conn) {
      assert Get(z.log, conn.session)[..conn.phase.mark] == Get(y.log, conn.session)[..conn.phase.mark];
    }
  }

  lemma CastStep(y: Sys, s: string, i: nat, c: Client)
    requires forall x :: MemberOk(y, x)
    requires CastLogged(y) && i < |Get(y.log, s)|
    requires c in y.conns && NoMiss(y, y.conns[c])
    ensures c in Step(y, Cast(s, i)).conns && NoMiss(Step(y, Cast(s, i)), Step(y, Cast(s, i)).conns[c])
  {
    var z := Step(y, Cast(s, i));
    var d := Delivery(s, i, Get(y.log, s)[i]);
    var conn := y.conns[c];
    DeliverCounts(y.conns, Get(y.t.clients, s), d, c);
    assert MemberOk(y, c);
    if Waiting(conn) && conn.session == s {
      assert Count(Get(y.t.clients, s), c) == 1;
      assert Copies(1, d) == [d];
      assert d in z.conns[c].inbox;
    }
    NoMissKept(y, z, conn, z.conns[c]);
  }

  lemma NoMissStep(y: Sys, op: Op, c: Client)
    requires forall x :: MemberOk(y, x)
    requires HistoryOk(y) && CastLogged(y)
    requires forall x :: x in y.conns ==> NoMiss(y, y.conns[x])
    requires c in Step(y, op).conns
    ensures NoMiss(Step(y, op), Step(y, op).conns[c])
  {
    hide Deliver, AllQueues, WithoutClient, MemberOk, LastOnes, Enumerates;
    var z := Step(y, op);
    match op
    case Cast(s, i) =>
      if i < |Get(y.log, s)| {
        DeliverKeys(y.conns, Get(y.t.clients, s), Delivery(s, i, Get(y.log, s)[i]));
        CastStep(y, s, i, c);
      }
    case CastAll(m, order) =>
      DeliverKeys(y.conns, AllQueues(y.t.clients, order), Notice(m));
      DeliverCounts(y.conns, AllQueues(y.t.clients, order), Notice(m), c);
      NoMissKept(y, z, y.conns[c], z.conns[c]);
    case Record(s, m) =>
      NoMissKept(y, z, y.conns[c], z.conns[c]);
    case ReadHistory(x) => NoMissRead(y, x, c);
    case Join(x, s) => NoMissJoin(y, x, s, c);
    case _ =>
  }

  lemma NoMissRead(y: Sys, x: Client, c: Client)
    requires HistoryOk(y) && c in y.conns && NoMiss(y, y.conns[c])
    ensures NoMiss(Step(y, ReadHistory(x)), Step(y, ReadHistory(x)).conns[c])
  {
    hide LastOnes;
    if x in y.conns {
      var log := Get(y.log, y.conns[x].session);
      assert log[..|log|] == log;
    }
  }

  lemma NoMissJoin(y: Sys, x: Client, s: string, c: Client)
    requires HistoryOk(y) && CastLogged(y) && c in y.conns && NoMiss(y, y.conns[c])
    ensures NoMiss(Step(y, Join(x, s)), Step(y, Join(x, s)).conns[c])
  {
    hide LastOnes, WithoutClient;
    var log := Get(y.log, s);
    assert log[..|log|] == log;
  }

  lemma {:induction false} CastOnlyLogged(ops: seq<Op>)
    ensures CastLogged(Run(ops))
  {
    hide CastLogged, Step;
    if ops == [] {
      NothingCast();
    } else {
      CastOnlyLogged(ops[..|ops| - 1]);
      CastLoggedStep(Run(ops[..|ops| - 1]), ops[|ops| - 1]);
    }
  }

  lemma NothingCast()
    ensures CastLogged(Init())
  {}

  lemma CastLoggedStep(y: Sys, op: Op)
    requires CastLogged(y)
    ensures CastLogged(Step(y, op))
  {
    hide Deliver, AllQueues, WithoutClient, Enumerates, WithMessage, WithSubscriber, Switched, Removed;
  }

  lemma {:induction false} NoMissAlways(ops: seq<Op>, c: Client)
    requires c in Run(ops).conns
    ensures NoMiss(Run(ops), Run(ops).conns[c])
  {
    if ops != [] {
      var before := ops[..|ops| - 1];
      forall x | x in Run(before).conns ensures NoMiss(Run(before), Run(before).conns[x]) { NoMissAlways(before, x); }
      forall s ensures Get(Run(before).t.history, s) == LastOnes(Get(Run(before).log, s)) { HistoryIsLastFifty(before, s); }
      CastOnlyLogged(before);
      Membership(before);
      NoMissStep(Run(before), ops[|ops| - 1], c);
    }
  }

  /** Delivery without gaps, for every interleaving of the locked sections: a client
    * that has joined a session and stayed has every message broadcast there on its
    * queue or in its history snapshot, or else 50 or more later messages had been
    * recorded there before the snapshot. */
  lemma NoGap(ops: seq<Op>, c: Client, i: nat)
    requires c in Run(ops).conns && Run(ops).conns[c].phase.Joined?
    requires (Run(ops).conns[c].session, i) in Run(ops).cast
    ensures i < |Get(Run(ops).log, Run(ops).conns[c].session)|
    ensures
      var y, conn := Run(ops), Run(ops).conns[c];
      var log, snapshot, mark := Get(y.log, conn.session), conn.phase.snapshot, conn.phase.mark;
      || Delivery(conn.session, i, log[i]) in conn.inbox
      || (i < mark && i + |snapshot| >= mark && snapshot[i + |snapshot| - mark] == log[i])
      || mark - (i + 1) >= 50
  {
    NoMissAlways(ops, c);
    CastOnlyLogged(ops);
  }

  /** The window is exact: a message recorded before the snapshot is in it exactly
    * when fewer than 50 later ones had been recorded. */
  lemma SnapshotWindow(ops: seq<Op>, c: Client, i: nat)
    requires c in Run(ops).conns && Run(ops).conns[c].phase.Joined?
    requires i < Run(ops).conns[c].phase.mark
    ensures
      var phase := Run(ops).conns[c].phase;
      i + |phase.snapshot| >= phase.mark <==> phase.mark - (i + 1) < 50
  {
    NoMissAlways(ops, c);
  }
}
