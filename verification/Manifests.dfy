/** What a manifest holds, read off the loaded profile, the registry and the live devices. */
module Manifests {
  import opened Merge
  import opened Outcomes
  import opened Profiles
  import opened Broker

  /** The key is missing, or names a mapping. */
  predicate MappingAt(v: Value, key: string) {
    v.Dict? && (key in v.fields ==> v.fields[key].Dict?)
  }

  // ---------- Which devices a profile allows ----------

  /** An allow-list names a device, a string each of its characters and a mapping each of
    * its keys; a list with a list or a mapping inside allows nothing. */
  lemma AllowedDevices(profile: Value, id: string)
    requires profile.Dict?
    ensures "allowed_devices" !in profile.fields ==> !Allows(profile, id)
    ensures "allowed_devices" in profile.fields ==> (Allows(profile, id) <==>
      match profile.fields["allowed_devices"]
      case List(items) => Str(id) in items && forall x :: x in items ==> !x.List? && !x.Dict?
      case Str(s) => |id| == 1 && id[0] in s
      case Dict(fields) => id in fields
      case _ => false)
  {
    if "allowed_devices" in profile.fields {
      var v := profile.fields["allowed_devices"];
      assert Lookup(profile, "allowed_devices", List([])) == v;
      AllowedBy(v, id);
    }
  }

  lemma AllowedBy(v: Value, id: string)
    ensures AllowedIds(v).Some? && id in AllowedIds(v).value <==>
      match v
      case List(items) => Str(id) in items && forall x :: x in items ==> !x.List? && !x.Dict?
      case Str(s) => |id| == 1 && id[0] in s
      case Dict(fields) => id in fields
      case _ => false
  {
    match v
    case List(items) => assert forall x :: x in items && x.Str? && x.s == id ==> x == Str(id);
    case Str(s) => if |id| == 1 { assert id == [id[0]]; }
    case _ =>
  }

  /** The program can read the allow-list. */
  predicate AllowListReads(profile: Value) {
    profile.Dict? && ("allowed_devices" in profile.fields ==>
      match profile.fields["allowed_devices"]
      case List(items) => forall x :: x in items ==> !x.List? && !x.Dict?
      case Str(_) => true
      case Dict(_) => true
      case _ => false)
  }

  /** The program can read the list of channels. */
  predicate ChannelsRead(profile: Value) {
    profile.Dict? && ("default_channels" in profile.fields ==>
      profile.fields["default_channels"].List? || profile.fields["default_channels"].Str?)
  }

  /** An online record without any id. */
  predicate Nameless(world: World) {
    world.registry.Some? && exists d :: d in world.registry.value && d.status == "online" && d.deviceId.None? && d.id.None?
  }

  lemma OnlineIdsNone(world: World)
    ensures OnlineIds(world).None? <==> Nameless(world)
  {
    if world.registry.Some? {
      var records := world.registry.value;
      if d :| d in OnlineRecords(records) && d.deviceId.None? {
        OnlineRecordsMember(records, d);
        var r :| r in records && r.status == "online" && Normalized(r) == d;
        assert r.deviceId.None? && r.id.None?;
      }
      if d :| d in records && d.status == "online" && d.deviceId.None? && d.id.None? {
        OnlineRecordsMember(records, Normalized(d));
        assert Normalized(d) in OnlineRecords(records);
      }
    }
  }

  /** Every allowed device that is online has permissions the program can read: none, or a
    * mapping in a mapping. */
  ghost predicate PermissionsRead(world: World, profile: Value)
    requires profile.Dict?
  {
    forall id :: Allows(profile, id) && IsOnline(world, id) ==>
      MappingAt(profile, "device_permissions") &&
      ("device_permissions" in profile.fields ==> MappingAt(profile.fields["device_permissions"], id))
  }

  lemma PermissionsExist(profile: Value, id: string)
    requires profile.Dict?
    ensures Permissions(Lookup(profile, "device_permissions", EMPTY), id).Some? <==>
      MappingAt(profile, "device_permissions") &&
      ("device_permissions" in profile.fields ==> MappingAt(profile.fields["device_permissions"], id))
  {}

  lemma ToolsExist(world: World, profile: Value)
    requires profile.Dict? && OnlineIds(world).Some?
    ensures Tools(world, profile, OnlineIds(world).value).Some? <==> AllowListReads(profile) && PermissionsRead(world, profile)
  {
    hide Permissions, Bind, OnlineIds, IsOnline, MappingAt;
    var online := OnlineIds(world).value;
    forall id ensures id in online <==> IsOnline(world, id) { OnlineIdsAreOnline(world, id); }
    forall id
      ensures Permissions(Lookup(profile, "device_permissions", EMPTY), id).Some? <==>
        MappingAt(profile, "device_permissions") &&
        ("device_permissions" in profile.fields ==> MappingAt(profile.fields["device_permissions"], id))
    { PermissionsExist(profile, id); }
    var allowed := AllowedIds(Lookup(profile, "allowed_devices", List([])));
    assert allowed.Some? <==> AllowListReads(profile);
  }

  lemma SidesRead(profile: Value)
    requires profile.Dict?
    ensures Acl(profile).Some? <==>
      MappingAt(profile, "acl") &&
      ("acl" in profile.fields ==> MappingAt(profile.fields["acl"], "inbound") && MappingAt(profile.fields["acl"], "outbound"))
  {}

  /** When an announce gets a manifest: the profile loads, every online record has an id, and
    * each part of the profile has a shape that the program can read. */
  lemma ResolvesIff(world: World, identity: Identity)
    ensures ResolveAnnounce(world, identity).Ok? <==>
      var loaded := Load(world.dir, identity.agentId, []);
      && loaded.Ok? && !Nameless(world)
      && AllowListReads(loaded.value) && PermissionsRead(world, loaded.value) && ChannelsRead(loaded.value)
      && MappingAt(loaded.value, "surfaces") && MappingAt(loaded.value, "acl")
      && ("acl" in loaded.value.fields ==>
            MappingAt(loaded.value.fields["acl"], "inbound") && MappingAt(loaded.value.fields["acl"], "outbound"))
    ensures ResolveAnnounce(world, identity) == Err(NoProfile) <==>
      Load(world.dir, identity.agentId, []).Err? && Load(world.dir, identity.agentId, []).error.NotFound?
  {
    hide Load, OnlineIds, Tools, Acl, AllowListReads, PermissionsRead, Nameless;
    var loaded := Load(world.dir, identity.agentId, []);
    OnlineIdsNone(world);
    if loaded.Ok? {
      SidesRead(loaded.value);
      if OnlineIds(world).Some? { ToolsExist(world, loaded.value); }
    }
  }

  // ---------- The parts of a manifest ----------

  /** A value that counts as false. */
  predicate CountsAsFalse(v: Value) {
    v in {Null, Bool(false), Num(0), Str(""), List([]), Dict(map[])}
  }

  /** The tool of a device has the address that the device reports while it is live, and the
    * plain one of its id otherwise. */
  lemma ToolAddresses(world: World, identity: Identity, id: string)
    requires ResolveAnnounce(world, identity).Ok? && id in ResolveAnnounce(world, identity).value.tools
    ensures ResolveAnnounce(world, identity).value.tools[id].address ==
      if id in world.live then world.live[id] else "comms://" + id
  {
    hide Load, OnlineIds, Acl, ChannelNames, Surfaces;
  }

  /** A manifest hands out the surfaces that the profile switches on, each with the agent's
    * mailbox in its address. */
  lemma SurfacesHandedOut(world: World, identity: Identity, s: string)
    requires ResolveAnnounce(world, identity).Ok?
    ensures
      var m, profile := ResolveAnnounce(world, identity).value, Load(world.dir, identity.agentId, []).value;
      && (s in m.surfaceAddresses <==>
            "surfaces" in profile.fields && profile.fields["surfaces"].Dict? && s in profile.fields["surfaces"].fields
            && !CountsAsFalse(profile.fields["surfaces"].fields[s]))
      && (s in m.surfaceAddresses ==> m.surfaceAddresses[s] == "comms://" + identity.box + "." + identity.boxN + "." + s)
  {
    hide Load, OnlineIds, Acl, ChannelNames, Tools;
  }

  /** An agent is subscribed to its default channels, with the shared channel in front unless
    * it is among them. */
  lemma SubscribedTo(world: World, identity: Identity)
    requires ResolveAnnounce(world, identity).Ok?
    ensures
      var m, profile := ResolveAnnounce(world, identity).value, Load(world.dir, identity.agentId, []).value;
      && ("default_channels" !in profile.fields ==> m.subscriptions == [Str("shared")])
      && ("default_channels" in profile.fields && profile.fields["default_channels"].List? ==>
            var items := profile.fields["default_channels"].items;
            m.subscriptions == if Str("shared") in items then items else [Str("shared")] + items)
      && ("default_channels" in profile.fields && profile.fields["default_channels"].Str? ==>
            var s := profile.fields["default_channels"].s;
            && |m.subscriptions| == |s| + 1 && m.subscriptions[0] == Str("shared")
            && forall i :: 0 <= i < |s| ==> m.subscriptions[i + 1] == Str([s[i]]))
  {
    hide Load, OnlineIds, Acl, Surfaces, Tools;
    assert [Str("shared")] + [] == [Str("shared")];
  }

  /** The other entries of a manifest stand under their own keys in the profile. */
  lemma PlainEntries(world: World, identity: Identity, key: string)
    requires ResolveAnnounce(world, identity).Ok?
    ensures
      var m, profile := ResolveAnnounce(world, identity).value, Load(world.dir, identity.agentId, []).value;
      && m.agentId == identity.agentId && m.primaryAddress == "comms://" + identity.box + "." + identity.boxN
      && m.profileVersion == (if "profile_version" in profile.fields then profile.fields["profile_version"] else Str("1.0"))
      && m.visibility == (if "visibility" in profile.fields then profile.fields["visibility"] else Str("secondary"))
      && (key in m.stateRefs <==>
            "state_refs" in profile.fields && profile.fields["state_refs"].Dict? && key in profile.fields["state_refs"].fields)
      && (key in m.stateRefs ==> m.stateRefs[key] == profile.fields["state_refs"].fields[key])
  {
    hide Load, OnlineIds, Acl, Surfaces, Tools, ChannelNames;
  }

  // ---------- Which values JSON can write ----------

  datatype Step = Key(key: string) | Index(i: nat)

  /** What stands in a value behind a path of keys and positions. */
  function Dig(v: Value, path: seq<Step>): Option<Value> {
    if path == [] then Some(v)
    else match path[0]
      case Key(k) => if v.Dict? && k in v.fields then Dig(v.fields[k], path[1..]) else None
      case Index(i) => if v.List? && i < |v.items| then Dig(v.items[i], path[1..]) else None
  }

  predicate StampAt(v: Value, path: seq<Step>) {
    Dig(v, path).Some? && Dig(v, path).value.Stamp?
  }

  lemma DigCons(v: Value, step: Step, path: seq<Step>)
    ensures Dig(v, [step] + path) ==
      match step
      case Key(k) => if v.Dict? && k in v.fields then Dig(v.fields[k], path) else None
      case Index(i) => if v.List? && i < |v.items| then Dig(v.items[i], path) else None
  {
    assert ([step] + path)[1..] == path;
  }

  lemma {:induction false} NoStampInside(v: Value, path: seq<Step>)
    requires Writable(v)
    ensures !StampAt(v, path)
    decreases path
  {
    if path != [] {
      match path[0]
      case Key(k) => if v.Dict? && k in v.fields { NoStampInside(v.fields[k], path[1..]); }
      case Index(i) => if v.List? && i < |v.items| { NoStampInside(v.items[i], path[1..]); }
    }
  }

  lemma {:induction false} StampInside(v: Value) returns (path: seq<Step>)
    requires !Writable(v)
    ensures StampAt(v, path)
    decreases v
  {
    match v
    case Stamp(_) => path := [];
    case List(items) =>
      var i :| 0 <= i < |items| && !Writable(items[i]);
      var rest := StampInside(items[i]);
      path := [Index(i)] + rest;
      DigCons(v, Index(i), rest);
    case Dict(fields) =>
      var k :| k in fields && !Writable(fields[k]);
      var rest := StampInside(fields[k]);
      path := [Key(k)] + rest;
      DigCons(v, Key(k), rest);
    case _ =>
  }

  /** JSON can write a value exactly when no timestamp stands anywhere inside. */
  lemma WritableIff(v: Value)
    ensures Writable(v) <==> forall path :: !StampAt(v, path)
  {
    if Writable(v) {
      forall path ensures !StampAt(v, path) { NoStampInside(v, path); }
    } else {
      var path := StampInside(v);
    }
  }

  /** A timestamp stands somewhere inside the value. */
  ghost predicate HasStamp(v: Value) {
    exists path :: StampAt(v, path)
  }

  /** A manifest can be posted exactly when there is no timestamp in its subscriptions, access
    * lists, state references, version or visibility, nor in the mode and rate limit of a tool. */
  lemma WritableManifestIff(m: Manifest)
    ensures WritableManifest(m) <==>
      && (forall v :: v in m.subscriptions || v in m.acl ==> !HasStamp(v))
      && (forall k :: k in m.stateRefs ==> !HasStamp(m.stateRefs[k]))
      && !HasStamp(m.profileVersion) && !HasStamp(m.visibility)
      && (forall id :: id in m.tools ==> !HasStamp(m.tools[id].mode) && !HasStamp(m.tools[id].rateLimit))
  {
    hide Writable, StampAt;
    forall v ensures Writable(v) <==> !HasStamp(v) { WritableIff(v); }
  }
}
