/** The device registry file and the skeleton's live devices, over skeleton restarts. */
module Rack {
  import opened Outcomes

  datatype Status = Online | Offline | Blocked

  datatype Record = Record(name: string, status: Status, mailbox: string, autoBlocked: bool)

  datatype RegistrationError = AlreadyLive | AlreadyRegistered(status: Status)
  datatype BlockError = NotAuthorized | NotOnline

  const SKELETON := "skeleton"

  type Records = map<string, Record>

  function WithStatus(records: Records, id: string, status: Status): Records {
    if id in records then records[id := records[id].(status := status)] else records
  }

  function AutoBlocked(records: Records, id: string): Records {
    if id in records then records[id := records[id].(status := Blocked, autoBlocked := true)] else records
  }

  function Pinged(records: Records, reachable: set<string>): Records {
    map id | id in records ::
      if records[id].status == Blocked then records[id]
      else records[id].(status := if id in reachable then Online else Offline)
  }

  /** The flat file behind the registry. */
  class DeviceRegistry {
    var data: Records

    constructor ()
      ensures data == map[]
    {
      data := map[];
    }

    method Register(id: string, name: string, mailbox: string)
      modifies this
      ensures data == old(data)[id := Record(name, Online, mailbox, false)]
    {
      data := data[id := Record(name, Online, mailbox, false)];
    }

    method SetStatus(id: string, status: Status)
      modifies this
      ensures data == WithStatus(old(data), id, status)
    {
      if id in data { data := data[id := data[id].(status := status)]; }
    }

    method AutoBlock(id: string)
      modifies this
      ensures data == AutoBlocked(old(data), id)
    {
      if id in data { data := data[id := data[id].(status := Blocked, autoBlocked := true)]; }
    }

    /** Pings every record that is not blocked, one after the other. */
    method PingOnRestart(reachable: set<string>)
      modifies this
      ensures data == Pinged(old(data), reachable)
    {
      var loaded := data;
      var todo := loaded.Keys;
      while todo != {}
        invariant todo <= loaded.Keys == old(data).Keys && data == old(data)
        invariant forall id :: id in loaded ==>
          (loaded[id] == if id in todo then old(data)[id] else Pinged(old(data), reachable)[id])
      {
        var id :| id in todo;
        todo := todo - {id};
        if loaded[id].status != Blocked {
          var newStatus := if id in reachable then Online else Offline;
          if loaded[id].status != newStatus {
            loaded := loaded[id := loaded[id].(status := newStatus)];
          }
        }
      }
      assert loaded == Pinged(old(data), reachable);
      data := loaded;
    }
  }

  /** What one skeleton process and the registry file hold together. */
  datatype State = State(live: set<string>, records: Records)

  function Booted(records: Records): State {
    State({}, records[SKELETON := Record("Skeleton", Online, "comms://skeleton", false)])
  }

  function RegistrationOutcome(s: State, id: string): Option<RegistrationError> {
    if id in s.live then Some(AlreadyLive)
    else if id in s.records && s.records[id].status != Offline then Some(AlreadyRegistered(s.records[id].status))
    else None
  }

  function Registered(s: State, id: string, name: string, mailbox: string): State {
    if RegistrationOutcome(s, id) != None then s
    else State(s.live + {id}, s.records[id := Record(name, Online, mailbox, false)])
  }

  function Deregistered(s: State, id: string): State {
    State(s.live - {id}, WithStatus(s.records, id, Offline))
  }

  predicate MayBlock(caller: string, id: string) {
    caller == SKELETON || caller == id
  }

  function ToolBlocked(s: State, caller: string, id: string): State {
    if MayBlock(caller, id) && id in s.live then s.(records := WithStatus(s.records, id, Blocked)) else s
  }

  class Skeleton {
    const registry: DeviceRegistry
    var devices: set<string>

    function View(): State
      reads this, registry
    {
      State(devices, registry.data)
    }

    /** A new skeleton process on an existing registry file. */
    constructor (registry: DeviceRegistry)
      modifies registry
      ensures this.registry == registry
      ensures View() == Booted(old(registry.data))
    {
      this.registry := registry;
      devices := {};
      new;
      registry.Register(SKELETON, "Skeleton", "comms://skeleton");
    }

    method RegisterDevice(id: string, name: string, mailbox: string) returns (error: Option<RegistrationError>)
      modifies this, registry
      ensures error == RegistrationOutcome(old(View()), id)
      ensures View() == Registered(old(View()), id, name, mailbox)
    {
      if id in devices { return Some(AlreadyLive); }
      if id in registry.data && registry.data[id].status != Offline {
        return Some(AlreadyRegistered(registry.data[id].status));
      }
      registry.Register(id, name, mailbox);
      devices := devices + {id};
      return None;
    }

    method DeregisterDevice(id: string)
      modifies this, registry
      ensures View() == Deregistered(old(View()), id)
    {
      devices := devices - {id};
      registry.SetStatus(id, Offline);
    }

    /** The block tool of a device. */
    method DeviceBlock(caller: string, id: string) returns (error: Option<BlockError>)
      modifies registry
      ensures error == if !MayBlock(caller, id) then Some(NotAuthorized) else if id !in devices then Some(NotOnline) else None
      ensures View() == ToolBlocked(old(View()), caller, id)
    {
      if caller != SKELETON && caller != id { return Some(NotAuthorized); }
      if id !in devices { return Some(NotOnline); }
      registry.SetStatus(id, Blocked);
      return None;
    }
  }

  /** What registering does: a live device is refused, and so is one whose record is not
    * offline; any other one is live and on record as online afterwards, and nothing else changes. */
  lemma RegisteringDecides(s: State, id: string, name: string, mailbox: string)
    ensures id in s.live <==> RegistrationOutcome(s, id) == Some(AlreadyLive)
    ensures id !in s.live && id in s.records && s.records[id].status in {Online, Blocked} ==>
      RegistrationOutcome(s, id) == Some(AlreadyRegistered(s.records[id].status))
    ensures
      var t := Registered(s, id, name, mailbox);
      if id in s.live || (id in s.records && s.records[id].status in {Online, Blocked}) then t == s
      else
        && t.records.Keys == s.records.Keys + {id} && t.records[id] == Record(name, Online, mailbox, false)
        && (forall x :: x in t.live <==> x in s.live || x == id)
        && (forall x :: x in s.records && x != id ==> t.records[x] == s.records[x])
  {}

  /** A deregistered device can register again, whatever was the matter with it. */
  lemma DeregisteredMayRegister(s: State, id: string)
    ensures RegistrationOutcome(Deregistered(s, id), id) == None
  {}

  // ---------- Runs ----------

  datatype Op =
    | Register(id: string, name: string, mailbox: string)
    | Deregister(id: string)
    | BlockTool(caller: string, id: string)
    | AutoBlock(id: string)
    | Ping(reachable: set<string>)
    | Restart

  function Step(s: State, op: Op): State {
    match op
    case Register(id, name, mailbox) => Registered(s, id, name, mailbox)
    case Deregister(id) => Deregistered(s, id)
    case BlockTool(caller, id) => ToolBlocked(s, caller, id)
    case AutoBlock(id) => s.(records := AutoBlocked(s.records, id))
    case Ping(reachable) => s.(records := Pinged(s.records, reachable))
    case Restart => Booted(s.records)
  }

  function Run(s: State, ops: seq<Op>): State {
    if ops == [] then s else Step(Run(s, ops[..|ops| - 1]), ops[|ops| - 1])
  }

  /** Over any run on one registry file, every live device has a record, and records are never dropped. */
  lemma {:induction false} LiveDevicesAreRecorded(records: Records, ops: seq<Op>)
    ensures Run(Booted(records), ops).live <= Run(Booted(records), ops).records.Keys
    ensures records.Keys + {SKELETON} <= Run(Booted(records), ops).records.Keys
  {
    if ops != [] { LiveDevicesAreRecorded(records, ops[..|ops| - 1]); }
  }

  /** After a restart and a round of pings a device other than the skeleton can register
    * exactly when it has no record, or is neither blocked nor reachable: a device that
    * answers is refused until it is deregistered. */
  lemma ReattachAfterRestart(s: State, reachable: set<string>, id: string)
    requires id != SKELETON
    ensures RegistrationOutcome(Run(s, [Restart, Ping(reachable)]), id) == None <==>
      id !in s.records || (s.records[id].status != Blocked && id !in reachable)
  {
    assert [Restart, Ping(reachable)][..1] == [Restart] && [Restart][..0] == [];
    assert Run(s, [Restart]) == Booted(s.records);
  }

  predicate IsBlocked(s: State, id: string) {
    id in s.records && s.records[id].status == Blocked
  }

  /** One step unblocks a device exactly when it deregisters the device by name, or
    * restarts the skeleton and the device is the skeleton itself. */
  lemma UnblockedOnlyBy(s: State, op: Op, id: string)
    requires IsBlocked(s, id)
    ensures !IsBlocked(Step(s, op), id) <==> op == Deregister(id) || (op == Restart && id == SKELETON)
  {}

  /** A restart leaves no device live and changes no record but the skeleton's. */
  lemma RestartForgetsLive(s: State, id: string)
    ensures Step(s, Restart).live == {}
    ensures id != "skeleton" ==>
      (id in Step(s, Restart).records <==> id in s.records)
      && (id in s.records ==> Step(s, Restart).records[id] == s.records[id])
    ensures "skeleton" in Step(s, Restart).records && Step(s, Restart).records["skeleton"].status == Online
  {}

  /** Only the restart guard flags a record, and only a new registration takes the flag off. */
  lemma FlaggedOnlyBy(s: State, op: Op, id: string)
    requires id in s.records
    ensures
      var t := Step(s, op);
      id in t.records && t.records[id].autoBlocked ==
        if op == AutoBlock(id) then true
        else if op.Register? && op.id == id && RegistrationOutcome(s, id) == None then false
        else if op == Restart && id == "skeleton" then false
        else s.records[id].autoBlocked
  {}

  /** The block tool blocks a live device on record for the skeleton and for the device
    * itself, and for nobody else. */
  lemma BlockToolIff(s: State, caller: string, id: string)
    ensures IsBlocked(Step(s, BlockTool(caller, id)), id) <==>
      IsBlocked(s, id) || (id in s.live && id in s.records && (caller == "skeleton" || caller == id))
  {}

  /** The step blocks the device: an authorized call for a live device, or the restart guard. */
  predicate Blocks(s: State, op: Op, id: string) {
    match op
    case BlockTool(caller, x) => x == id && MayBlock(caller, id) && id in s.live && id in s.records
    case AutoBlock(x) => x == id && id in s.records
    case _ => false
  }

  predicate Unblocks(op: Op, id: string) {
    op == Deregister(id) || (op == Restart && id == SKELETON)
  }

  /** Step i blocked the device and no later step unblocked it. */
  ghost predicate BlockedAt(s: State, ops: seq<Op>, i: nat, id: string)
    requires i < |ops|
  {
    Blocks(Run(s, ops[..i]), ops[i], id) && forall j :: i < j < |ops| ==> !Unblocks(ops[j], id)
  }

  lemma BlockedNext(s: State, op: Op, id: string)
    ensures IsBlocked(Step(s, op), id) <==> Blocks(s, op, id) || (IsBlocked(s, id) && !Unblocks(op, id))
  {}

  lemma BlockedAtLonger(s: State, before: seq<Op>, op: Op, i: nat, id: string)
    requires i <= |before|
    ensures BlockedAt(s, before + [op], i, id) <==>
      if i == |before| then Blocks(Run(s, before), op, id) else BlockedAt(s, before, i, id) && !Unblocks(op, id)
  {
    hide Run, Blocks, Unblocks;
    var ops := before + [op];
    assert ops[..i] == before[..i] && ops[|before|] == op && before[..|before|] == before;
    forall j | 0 <= j < |before| ensures ops[j] == before[j] {}
  }

  /** Over any run a device is blocked exactly when some step blocked it, or it was blocked
    * at the start, and no step since has deregistered it by name or, for the skeleton
    * itself, restarted the skeleton. */
  lemma {:induction false} BlockedIff(s: State, ops: seq<Op>, id: string)
    ensures IsBlocked(Run(s, ops), id) <==>
      || (exists i :: 0 <= i < |ops| && BlockedAt(s, ops, i, id))
      || (IsBlocked(s, id) && forall j :: 0 <= j < |ops| ==> !Unblocks(ops[j], id))
  {
    hide IsBlocked, Blocks, Unblocks, BlockedAt, Step;
    if ops != [] {
      var n := |ops| - 1;
      var before, op := ops[..n], ops[n];
      assert ops == before + [op];
      BlockedIff(s, before, id);
      BlockedNext(Run(s, before), op, id);
      forall i | 0 <= i <= n ensures BlockedAt(s, ops, i, id) <==>
        if i == n then Blocks(Run(s, before), op, id) else BlockedAt(s, before, i, id) && !Unblocks(op, id)
      {
        BlockedAtLonger(s, before, op, i, id);
      }
      if BlockedAt(s, ops, n, id) { assert exists i :: 0 <= i < |ops| && BlockedAt(s, ops, i, id); }
      if i :| 0 <= i < n && BlockedAt(s, before, i, id) && !Unblocks(op, id) { assert BlockedAt(s, ops, i, id); }
    }
  }

  /** A blocked device other than the skeleton stays blocked, over any run with restarts
    * and pings, until it is deregistered by name; meanwhile it cannot register again. */
  lemma {:induction false} BlockedUntilDeregistered(s: State, ops: seq<Op>, id: string)
    requires IsBlocked(s, id) && id != SKELETON && Deregister(id) !in ops
    ensures IsBlocked(Run(s, ops), id)
    ensures RegistrationOutcome(Run(s, ops), id) != None
  {
    if ops != [] {
      BlockedUntilDeregistered(s, ops[..|ops| - 1], id);
      UnblockedOnlyBy(Run(s, ops[..|ops| - 1]), ops[|ops| - 1], id);
      assert ops[|ops| - 1] in ops;
    }
  }
}
