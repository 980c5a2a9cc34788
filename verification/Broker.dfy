/** The capability broker: from an identity to a manifest. */
module Broker {
  import opened Addresses
  import opened Outcomes
  import opened Merge
  import opened Profiles
  import Channels
  import Router

  datatype Identity = Identity(agentId: string, instance: string, box: string, boxN: string)

  function Primary(identity: Identity): string {
    Router.PrimaryMailbox(identity.box, identity.boxN)
  }

  /** A registry record; either key may name the device. */
  datatype DeviceRecord = DeviceRecord(deviceId: Option<string>, id: Option<string>, status: string)

  /** Everything outside the announce: the profile files, the registry listing (None when
    * it fails), and the addresses that live devices report. */
  datatype World = World(dir: Directory, registry: Option<seq<DeviceRecord>>, live: map<string, string>)

  datatype Binding = Binding(name: string, address: string, mode: Value, rateLimit: Value)

  datatype Manifest = Manifest(
    agentId: string,
    primaryAddress: string,
    tools: map<string, Binding>,
    subscriptions: seq<Value>,
    stateRefs: map<string, Value>,
    acl: seq<Value>,
    surfaceAddresses: map<string, string>,
    profileVersion: Value,
    visibility: Value)

  datatype ResolveError = NoProfile | BrokerFailure

  // ---------- The registry ----------

  function Normalized(d: DeviceRecord): DeviceRecord {
    if d.deviceId.None? && d.id.Some? then d.(deviceId := d.id) else d
  }

  function OnlineRecords(records: seq<DeviceRecord>): seq<DeviceRecord> {
    if records == [] then []
    else
      var n := |records| - 1;
      OnlineRecords(records[..n]) + if records[n].status == "online" then [Normalized(records[n])] else []
  }

  method OnlineDevices(registry: Option<seq<DeviceRecord>>) returns (r: seq<DeviceRecord>)
    ensures r == if registry.None? then [] else OnlineRecords(registry.value)
  {
    if registry.None? { return []; }
    r := [];
    var raw := registry.value;
    for i := 0 to |raw|
      invariant r == OnlineRecords(raw[..i])
    {
      assert raw[..i + 1][..i] == raw[..i];
      var d := raw[i];
      if d.status == "online" {
        if d.deviceId.None? && d.id.Some? { d := d.(deviceId := d.id); }
        r := r + [d];
      }
    }
    assert raw[..|raw|] == raw;
  }

  predicate NamesDevice(d: DeviceRecord, id: string) {
    d.status == "online" && (d.deviceId == Some(id) || (d.deviceId.None? && d.id == Some(id)))
  }

  /** The device is in the registry and online. */
  predicate IsOnline(world: World, id: string) {
    world.registry.Some? && exists d :: d in world.registry.value && NamesDevice(d, id)
  }

  /** The ids of the online devices; None when an online record has no id at all. */
  function OnlineIds(world: World): Option<set<string>> {
    var records := if world.registry.None? then [] else OnlineRecords(world.registry.value);
    if forall d :: d in records ==> d.deviceId.Some?
    then Some(set d | d in records :: d.deviceId.value)
    else None
  }

  lemma {:induction false} OnlineRecordsMember(records: seq<DeviceRecord>, d: DeviceRecord)
    ensures d in OnlineRecords(records) <==> exists r :: r in records && r.status == "online" && Normalized(r) == d
  {
    if records != [] {
      var n := |records| - 1;
      OnlineRecordsMember(records[..n], d);
      assert records == records[..n] + [records[n]];
    }
  }

  /** The broker's online set holds exactly the registered devices that are online. */
  lemma OnlineIdsAreOnline(world: World, id: string)
    requires OnlineIds(world).Some?
    ensures id in OnlineIds(world).value <==> IsOnline(world, id)
  {
    if world.registry.Some? {
      var records := world.registry.value;
      if id in OnlineIds(world).value {
        var d :| d in OnlineRecords(records) && d.deviceId.value == id;
        OnlineRecordsMember(records, d);
        var r :| r in records && r.status == "online" && Normalized(r) == d;
        assert NamesDevice(r, id);
      }
      if r :| r in records && NamesDevice(r, id) {
        OnlineRecordsMember(records, Normalized(r));
        assert Normalized(r) in OnlineRecords(records);
      }
    }
  }

  // ---------- Reading the profile ----------

  function Lookup(profile: Value, key: string, default: Value): Value
    requires profile.Dict?
  {
    if key in profile.fields then profile.fields[key] else default
  }

  predicate Hashable(v: Value) { !v.List? && !v.Dict? }

  /** set(allowed_devices), as far as it can name devices; None when it raises. */
  function AllowedIds(v: Value): Option<set<string>> {
    match v
    case List(items) =>
      if forall x :: x in items ==> Hashable(x) then Some(set x | x in items && x.Str? :: x.s) else None
    case Str(s) => Some(set c | c in s :: [c])
    case Dict(fields) => Some(fields.Keys)
    case _ => None
  }

  /** list(default_channels), with the shared channel first if it is missing; None when it raises. */
  function ChannelNames(v: Value): Option<seq<Value>> {
    var names := match v
      case List(items) => Some(items)
      case Str(s) => Some(seq(|s|, i requires 0 <= i < |s| => Str([s[i]])))
      case _ => None;
    if names.None? then None
    else if Channels.SHARED in names.value then names
    else Some([Channels.SHARED] + names.value)
  }

  predicate Truthy(v: Value) {
    match v
    case Null => false
    case Bool(b) => b
    case Num(n) => n != 0
    case Str(s) => s != ""
    case Stamp(_) => true
    case List(items) => items != []
    case Dict(fields) => fields != map[]
  }

  /** The permissions of one device; None when they are not a mapping. */
  function Permissions(perms: Value, id: string): Option<Value>
    ensures var r := Permissions(perms, id); r.Some? ==> r.value.Dict?
  {
    if !perms.Dict? then None
    else if id !in perms.fields then Some(EMPTY)
    else if perms.fields[id].Dict? then Some(perms.fields[id])
    else None
  }

  function Bind(world: World, perms: Value, id: string): Binding
    requires Permissions(perms, id).Some?
  {
    var p := Permissions(perms, id).value;
    Binding(id, if id in world.live then world.live[id] else SCHEME + id,
            Lookup(p, "mode", Str("read_write")), Lookup(p, "rate_limit_per_min", Null))
  }

  /** A binding for every allowed device that is online. */
  function Tools(world: World, profile: Value, online: set<string>): Option<map<string, Binding>>
    requires profile.Dict?
  {
    var allowed := AllowedIds(Lookup(profile, "allowed_devices", List([])));
    var perms := Lookup(profile, "device_permissions", EMPTY);
    if allowed.None? || exists id :: id in allowed.value && id in online && Permissions(perms, id).None? then None
    else Some(map id | id in allowed.value && id in online :: Bind(world, perms, id))
  }

  /** The program's loop over the allowed devices, in whatever order the set gives them. */
  method BuildToolBindings(world: World, profile: Value, online: set<string>) returns (r: Option<seq<Binding>>)
    requires profile.Dict?
    ensures r.None? <==> Tools(world, profile, online).None?
    ensures r.Some? ==>
      && (forall b :: b in r.value <==> b.name in Tools(world, profile, online).value && Tools(world, profile, online).value[b.name] == b)
      && (forall i, j :: 0 <= i < j < |r.value| ==> r.value[i].name != r.value[j].name)
  {
    var allowed := AllowedIds(Lookup(profile, "allowed_devices", List([])));
    if allowed.None? { return None; }
    var perms := Lookup(profile, "device_permissions", EMPTY);
    var bindings: seq<Binding> := [];
    var todo := allowed.value;
    while todo != {}
      invariant todo <= allowed.value
      invariant forall id :: id in allowed.value && id !in todo && id in online ==> Permissions(perms, id).Some?
      invariant forall b :: b in bindings <==>
        b.name in allowed.value && b.name !in todo && b.name in online && Permissions(perms, b.name).Some? && b == Bind(world, perms, b.name)
      invariant forall i, j :: 0 <= i < j < |bindings| ==> bindings[i].name != bindings[j].name
    {
      var id :| id in todo;
      todo := todo - {id};
      if id in online {
        if Permissions(perms, id).None? { return None; }
        bindings := bindings + [Bind(world, perms, id)];
      }
    }
    r := Some(bindings);
  }

  function AclPart(acl: Value, side: string): Option<seq<Value>>
    requires acl.Dict?
  {
    var part := Lookup(acl, side, EMPTY);
    if part.Dict? then Some([Lookup(part, "allow", List([])), Lookup(part, "deny", List([]))]) else None
  }

  function Acl(profile: Value): Option<seq<Value>>
    requires profile.Dict?
  {
    var acl := Lookup(profile, "acl", EMPTY);
    if !acl.Dict? then None
    else
      var inbound, outbound := AclPart(acl, "inbound"), AclPart(acl, "outbound");
      if inbound.None? || outbound.None? then None else Some(inbound.value + outbound.value)
  }

  function StateRefs(profile: Value): map<string, Value>
    requires profile.Dict?
  {
    var raw := Lookup(profile, "state_refs", EMPTY);
    if raw.Dict? then raw.fields else map[]
  }

  function Surfaces(identity: Identity, profile: Value): Option<map<string, string>>
    requires profile.Dict?
  {
    var raw := Lookup(profile, "surfaces", EMPTY);
    if !raw.Dict? then None
    else Some(map s | s in raw.fields && Truthy(raw.fields[s]) :: Router.SurfaceAddress(identity.box, identity.boxN, s))
  }

  // ---------- Resolving an announce ----------

  function ResolveAnnounce(world: World, identity: Identity): Result<Manifest, ResolveError> {
    var loaded := Load(world.dir, identity.agentId, []);
    if loaded.Err? then Err(if loaded.error.NotFound? then NoProfile else BrokerFailure)
    else
      var profile := loaded.value;
      var online := OnlineIds(world);
      if online.None? then Err(BrokerFailure)
      else
        var tools := Tools(world, profile, online.value);
        var subscriptions := ChannelNames(Lookup(profile, "default_channels", List([])));
        var acl := Acl(profile);
        var surfaces := Surfaces(identity, profile);
        if tools.None? || subscriptions.None? || acl.None? || surfaces.None? then Err(BrokerFailure)
        else Ok(Manifest(identity.agentId, SCHEME + Primary(identity), tools.value, subscriptions.value,
                         StateRefs(profile), acl.value, surfaces.value,
                         Lookup(profile, "profile_version", Str("1.0")), Lookup(profile, "visibility", Str("secondary"))))
  }

  /** The profile allows the device. */
  ghost predicate Allows(profile: Value, id: string)
    requires profile.Dict?
  {
    var allowed := AllowedIds(Lookup(profile, "allowed_devices", List([])));
    allowed.Some? && id in allowed.value
  }

  /** A manifest names exactly the tools that the loaded profile allows and that are online
    * at issue, addresses the announcing agent, and always subscribes it to the shared channel. */
  lemma ManifestIsSound(world: World, identity: Identity)
    requires ResolveAnnounce(world, identity).Ok?
    ensures
      var m := ResolveAnnounce(world, identity).value;
      var profile := Load(world.dir, identity.agentId, []);
      && profile.Ok?
      && (forall id :: id in m.tools <==> Allows(profile.value, id) && IsOnline(world, id))
      && (forall id :: id in m.tools ==> m.tools[id].name == id)
      && m.agentId == identity.agentId && m.primaryAddress == SCHEME + Primary(identity)
      && Channels.SHARED in m.subscriptions
  {
    forall id ensures id in OnlineIds(world).value <==> IsOnline(world, id) { OnlineIdsAreOnline(world, id); }
  }

  // ---------- The manifest and the key paths of the profile ----------

  function FieldAt(v: Value, path: seq<string>, default: Value): Value {
    match ValueAt(v, path)
    case Some(x) => x
    case None => default
  }

  lemma OneKey(v: Value, a: string)
    ensures ValueAt(v, [a]) == if v.Dict? && a in v.fields then Some(v.fields[a]) else None
  {
    assert [a][1..] == [];
  }

  lemma TwoKeys(v: Value, a: string, b: string)
    ensures ValueAt(v, [a, b]) ==
      if v.Dict? && a in v.fields && v.fields[a].Dict? && b in v.fields[a].fields then Some(v.fields[a].fields[b]) else None
  {
    assert [a, b][1..] == [b];
    if v.Dict? && a in v.fields { OneKey(v.fields[a], b); }
  }

  lemma ThreeKeys(v: Value, a: string, b: string, c: string)
    ensures ValueAt(v, [a, b, c]) ==
      if v.Dict? && a in v.fields then ValueAt(v.fields[a], [b, c]) else None
  {
    assert [a, b, c][1..] == [b, c];
  }

  lemma FieldOfPart(acl: Value, side: string, list: string)
    requires acl.Dict? && AclPart(acl, side).Some?
    ensures FieldAt(acl, [side, list], List([])) == Lookup(Lookup(acl, side, EMPTY), list, List([]))
  {
    TwoKeys(acl, side, list);
  }

  lemma AclReadsProfile(profile: Value)
    requires profile.Dict? && Acl(profile).Some?
    ensures Acl(profile).value == [
      FieldAt(profile, ["acl", "inbound", "allow"], List([])), FieldAt(profile, ["acl", "inbound", "deny"], List([])),
      FieldAt(profile, ["acl", "outbound", "allow"], List([])), FieldAt(profile, ["acl", "outbound", "deny"], List([]))]
  {
    hide ValueAt;
    var acl := Lookup(profile, "acl", EMPTY);
    forall side, list | side in {"inbound", "outbound"} && list in {"allow", "deny"}
      ensures FieldAt(profile, ["acl", side, list], List([])) == Lookup(Lookup(acl, side, EMPTY), list, List([]))
    {
      ThreeKeys(profile, "acl", side, list);
      TwoKeys(acl, side, list);
      FieldOfPart(acl, side, list);
    }
  }

  lemma BindingReadsProfile(world: World, profile: Value, id: string)
    requires profile.Dict? && Permissions(Lookup(profile, "device_permissions", EMPTY), id).Some?
    ensures
      var b := Bind(world, Lookup(profile, "device_permissions", EMPTY), id);
      && b.mode == FieldAt(profile, ["device_permissions", id, "mode"], Str("read_write"))
      && b.rateLimit == FieldAt(profile, ["device_permissions", id, "rate_limit_per_min"], Null)
  {
    PermissionAt(profile, id, "mode", Str("read_write"));
    PermissionAt(profile, id, "rate_limit_per_min", Null);
    hide FieldAt, Permissions, Lookup;
  }

  lemma PermissionAt(profile: Value, id: string, key: string, default: Value)
    requires profile.Dict? && Permissions(Lookup(profile, "device_permissions", EMPTY), id).Some?
    ensures FieldAt(profile, ["device_permissions", id, key], default) ==
      Lookup(Permissions(Lookup(profile, "device_permissions", EMPTY), id).value, key, default)
  {
    hide ValueAt;
    ThreeKeys(profile, "device_permissions", id, key);
    TwoKeys(Lookup(profile, "device_permissions", EMPTY), id, key);
  }

  /** What a manifest grants is what stands at fixed key paths of the loaded profile:
    * the access lists, and the mode and rate limit of each tool. */
  lemma ManifestReadsProfile(world: World, identity: Identity)
    requires ResolveAnnounce(world, identity).Ok?
    ensures
      var m := ResolveAnnounce(world, identity).value;
      var profile := Load(world.dir, identity.agentId, []).value;
      && m.acl == [
        FieldAt(profile, ["acl", "inbound", "allow"], List([])), FieldAt(profile, ["acl", "inbound", "deny"], List([])),
        FieldAt(profile, ["acl", "outbound", "allow"], List([])), FieldAt(profile, ["acl", "outbound", "deny"], List([]))]
      && (forall id :: id in m.tools ==>
        m.tools[id].mode == FieldAt(profile, ["device_permissions", id, "mode"], Str("read_write"))
        && m.tools[id].rateLimit == FieldAt(profile, ["device_permissions", id, "rate_limit_per_min"], Null))
  {
    hide Load, FieldAt, Acl, Bind, OnlineIds, AllowedIds, ChannelNames, Surfaces, StateRefs;
    var m := ResolveAnnounce(world, identity).value;
    var profile := Load(world.dir, identity.agentId, []).value;
    AclReadsProfile(profile);
    forall id | id in m.tools
      ensures m.tools[id].mode == FieldAt(profile, ["device_permissions", id, "mode"], Str("read_write"))
        && m.tools[id].rateLimit == FieldAt(profile, ["device_permissions", id, "rate_limit_per_min"], Null)
    {
      BindingReadsProfile(world, profile, id);
    }
  }

  /** A replacement marker on an access list in the agent's own file reaches the manifest:
    * the list it gets is the marker's payload, whatever the ancestors say, unless merging
    * them with the file makes a marker above it; then the list comes out of that one. */
  lemma MarkerReachesManifest(world: World, identity: Identity, side: string, list: string)
    requires side in {"inbound", "outbound"} && list in {"allow", "deny"}
    requires ResolveAnnounce(world, identity).Ok?
    requires IsOwnMarker(world.dir[identity.agentId], ["acl", side, list])
    ensures
      var dir, id, path := world.dir, identity.agentId, ["acl", side, list];
      var position := (if side == "inbound" then 0 else 2) + if list == "allow" then 0 else 1;
      ResolveAnnounce(world, identity).value.acl[position] ==
        match WayTo(Inherited(dir, id), dir[id], path)
        case Open => At(dir[id], path).v.fields[VALUE]
        case Cut(payload, rest) => FieldAt(payload, rest, List([]))
  {
    hide At, ValueAt, Load, Layers, ResolveAnnounce, WayTo, Inherited, IsMarker;
    ManifestReadsProfile(world, identity);
    ManifestIsSound(world, identity);
    LoadedPayload(world.dir, identity.agentId, ["acl", side, list]);
  }

  /** The addresses a manifest hands out lead back to the agent: the primary address to its
    * mailbox exactly when that is registered, a surface address to the mailbox and the
    * surface exactly when, besides, no longer dot-prefix is registered. */
  lemma ManifestAddressesResolve(world: World, identity: Identity, known: seq<string>, surface: string,
      r: Result<Router.Target, Router.AddressError>)
    requires ResolveAnnounce(world, identity).Ok?
    ensures
      var m, primary := ResolveAnnounce(world, identity).value, Primary(identity);
      && (Router.Resolves(known, m.primaryAddress, r) ==>
            (r == Ok(Router.Target(primary, None)) <==> primary in known))
      && (surface in m.surfaceAddresses && Router.Resolves(known, m.surfaceAddresses[surface], r) ==>
            (r == Ok(Router.Target(primary, Some(surface))) <==>
              primary in known && forall other ::
                other in known && Router.IsDotPrefix(other, primary + "." + surface) ==> |other| <= |primary|))
  {
    hide Load, OnlineIds, Tools, ChannelNames, Acl, StateRefs, Router.Resolves, Router.IsDotPrefix;
    var m := ResolveAnnounce(world, identity).value;
    if Router.Resolves(known, m.primaryAddress, r) {
      Router.WholePathFirst(known, Primary(identity), r);
    }
    if surface in m.surfaceAddresses && Router.Resolves(known, m.surfaceAddresses[surface], r) {
      Router.SurfaceRoundTrip(known, identity.box, identity.boxN, surface, r);
    }
  }

  // ---------- Writing a manifest as JSON ----------

  predicate Writable(v: Value) {
    match v
    case Stamp(_) => false
    case List(items) => forall i :: 0 <= i < |items| ==> Writable(items[i])
    case Dict(fields) => forall k :: k in fields ==> Writable(fields[k])
    case _ => true
  }

  predicate AllWritable(vs: seq<Value>) {
    forall v :: v in vs ==> Writable(v)
  }

  predicate WritableManifest(m: Manifest) {
    && (forall id :: id in m.tools ==> Writable(m.tools[id].mode) && Writable(m.tools[id].rateLimit))
    && AllWritable(m.subscriptions) && AllWritable(m.acl)
    && (forall k :: k in m.stateRefs ==> Writable(m.stateRefs[k]))
    && Writable(m.profileVersion) && Writable(m.visibility)
  }
}
