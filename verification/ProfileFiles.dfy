/** What a profile file means, in terms of the document itself: the order of its parents,
  * the required fields, and who wins at a path. */
module ProfileFiles {
  import opened Outcomes
  import opened Merge
  import opened Profiles

  // ---------- Reading one document ----------

  /** The document declares these parents, in this order: a list of names, a string taken
    * character by character, or any empty form. */
  predicate Declares(doc: Value, parents: seq<string>)
    requires doc.Dict?
  {
    if "inherits" !in doc.fields then parents == []
    else match doc.fields["inherits"]
      case List(items) => |items| == |parents| && forall i :: 0 <= i < |items| ==> items[i] == Str(parents[i])
      case Str(s) => |s| == |parents| && forall i :: 0 <= i < |s| ==> parents[i] == [s[i]]
      case Null => parents == []
      case Bool(b) => !b && parents == []
      case Num(n) => n == 0 && parents == []
      case Stamp(_) => false
      case Dict(fields) => fields == map[] && parents == []
  }

  lemma NamesAre(items: seq<Value>, parents: seq<string>)
    ensures (forall v :: v in items ==> v.Str?) && Names(items) == parents <==>
      |items| == |parents| && forall i :: 0 <= i < |items| ==> items[i] == Str(parents[i])
  {
    if |items| == |parents| && forall i :: 0 <= i < |items| ==> items[i] == Str(parents[i]) {
      assert Names(items) == parents;
    } else if forall v :: v in items ==> v.Str? {
      if Names(items) == parents {
        forall i | 0 <= i < |items| ensures items[i] == Str(parents[i]) { assert items[i] in items && Names(items)[i] == items[i].s; }
      }
    }
  }

  lemma ParentsAreDeclared(doc: Value, parents: seq<string>)
    requires doc.Dict?
    ensures ParentsOf(doc) == Some(parents) <==> Declares(doc, parents)
  {
    if INHERITS in doc.fields {
      match doc.fields[INHERITS]
      case List(items) => NamesAre(items, parents);
      case Str(s) =>
        if Declares(doc, parents) { assert ParentsOf(doc).value == parents; }
      case _ =>
    }
  }

  /** A document is valid exactly when it is a mapping with the two required fields and
    * declares its parents. */
  lemma ValidDocIff(dir: Directory, id: string)
    ensures ValidDoc(dir, id) <==>
      && id in dir && dir[id].Dict?
      && "profile_version" in dir[id].fields && "agent_type" in dir[id].fields
      && exists parents :: Declares(dir[id], parents)
  {
    if id in dir && dir[id].Dict? {
      if ParentsOf(dir[id]).Some? { ParentsAreDeclared(dir[id], ParentsOf(dir[id]).value); }
      if parents :| Declares(dir[id], parents) { ParentsAreDeclared(dir[id], parents); }
    }
  }

  // ---------- Loading does not depend on the way ----------

  predicate Within(seen: seq<string>, more: seq<string>) {
    forall s :: s in seen ==> s in more
  }

  /** A profile that loads below some path loads to the same below any part of it. */
  lemma {:induction false} LoadBelowLess(dir: Directory, id: string, seen: seq<string>, less: seq<string>)
    requires Load(dir, id, seen).Ok? && Within(less, seen)
    ensures Load(dir, id, less) == Load(dir, id, seen)
    decreases Unvisited(dir, seen), 0
  {
    hide Resolve, DeepMerge;
    VisitShrinks(dir, seen, id);
    LoadParentsBelowLess(dir, ParentsOf(dir[id]).value, seen + [id], less + [id], EMPTY);
  }

  lemma {:induction false} LoadParentsBelowLess(dir: Directory, parents: seq<string>, seen: seq<string>, less: seq<string>, merged: Value)
    requires merged.Dict? && LoadParents(dir, parents, seen, merged).Ok? && Within(less, seen)
    ensures LoadParents(dir, parents, less, merged) == LoadParents(dir, parents, seen, merged)
    decreases Unvisited(dir, seen), |parents|
  {
    hide Resolve, DeepMerge;
    if parents != [] {
      LoadBelowLess(dir, parents[0], seen, less);
      LoadParentsBelowLess(dir, parents[1..], seen, less, DeepMerge(merged, Load(dir, parents[0], seen).value));
    }
  }

  // ---------- The parents, from left to right ----------

  /** The profiles merged over each other, the first one lowest. */
  function MergedUp(base: Value, profiles: seq<Value>): (r: Value)
    requires base.Dict? && forall p :: p in profiles ==> p.Dict?
    ensures r.Dict?
  {
    if profiles == [] then base else DeepMerge(MergedUp(base, profiles[..|profiles| - 1]), profiles[|profiles| - 1])
  }

  lemma {:induction false} MergedUpFirst(base: Value, profiles: seq<Value>)
    requires base.Dict? && profiles != [] && forall p :: p in profiles ==> p.Dict?
    ensures MergedUp(base, profiles) == MergedUp(DeepMerge(base, profiles[0]), profiles[1..])
  {
    hide DeepMerge;
    var n := |profiles| - 1;
    if n == 0 {
      assert profiles[..0] == [] && profiles[1..] == [];
    } else {
      MergedUpFirst(base, profiles[..n]);
      assert profiles[..n][1..] == profiles[1..][..n - 1] && profiles[..n][0] == profiles[0];
      assert profiles[1..][|profiles[1..]| - 1] == profiles[n];
    }
  }

  /** The loaded parents. */
  function Loaded(dir: Directory, parents: seq<string>): (r: seq<Value>)
    requires forall i :: 0 <= i < |parents| ==> Load(dir, parents[i], []).Ok?
    ensures |r| == |parents| && forall v :: v in r ==> v.Dict?
  {
    seq(|parents|, i requires 0 <= i < |parents| => Load(dir, parents[i], []).value)
  }

  lemma {:induction false} ParentsMergeUp(dir: Directory, parents: seq<string>, seen: seq<string>, merged: Value)
    requires merged.Dict? && LoadParents(dir, parents, seen, merged).Ok?
    ensures forall i :: 0 <= i < |parents| ==> Load(dir, parents[i], []).Ok?
    ensures LoadParents(dir, parents, seen, merged).value == MergedUp(merged, Loaded(dir, parents))
  {
    hide DeepMerge, MergedUp, Load;
    if parents == [] {
      assert MergedUp(merged, []) == merged by { NothingMerged(merged); }
    } else {
      FirstParent(dir, parents, seen, merged);
      var first := Load(dir, parents[0], []).value;
      ParentsMergeUp(dir, parents[1..], seen, DeepMerge(merged, first));
      var profiles := Loaded(dir, parents);
      assert profiles[0] == first && profiles[1..] == Loaded(dir, parents[1..]);
      MergedUpFirst(merged, profiles);
    }
  }

  lemma NothingMerged(base: Value)
    requires base.Dict?
    ensures MergedUp(base, []) == base
  {}

  lemma FirstParent(dir: Directory, parents: seq<string>, seen: seq<string>, merged: Value)
    requires merged.Dict? && parents != [] && LoadParents(dir, parents, seen, merged).Ok?
    ensures Load(dir, parents[0], []).Ok? && Load(dir, parents[0], []) == Load(dir, parents[0], seen)
    ensures LoadParents(dir, parents, seen, merged) ==
      LoadParents(dir, parents[1..], seen, DeepMerge(merged, Load(dir, parents[0], []).value))
  {
    hide DeepMerge, Resolve;
    LoadBelowLess(dir, parents[0], seen, []);
  }

  /** What a profile is made of: the document itself when it declares no parents, otherwise
    * the parents it declares, each loaded as if on its own and merged from left to right,
    * with the document on top and the list of parents emptied; then the markers resolved. */
  lemma LoadedFromParents(dir: Directory, id: string, parents: seq<string>)
    requires Load(dir, id, []).Ok? && Declares(dir[id], parents)
    ensures forall i :: 0 <= i < |parents| ==> Load(dir, parents[i], []).Ok?
    ensures Load(dir, id, []).value ==
      if parents == [] then Resolve(dir[id])
      else
        var merged := DeepMerge(MergedUp(EMPTY, Loaded(dir, parents)), dir[id]);
        Resolve(Dict(merged.fields["inherits" := List([])]))
  {
    hide DeepMerge, Resolve, MergedUp;
    ParentsAreDeclared(dir[id], parents);
    if parents != [] {
      VisitShrinks(dir, [], id);
      ParentsMergeUp(dir, parents, [] + [id], EMPTY);
    }
  }

  /** A profile with parents does not show them. */
  lemma ParentsAreStripped(dir: Directory, id: string, parents: seq<string>)
    requires Load(dir, id, []).Ok? && Declares(dir[id], parents) && parents != []
    ensures Load(dir, id, []).value.fields["inherits"] == List([])
  {
    LoadedFromParents(dir, id, parents);
  }

  // ---------- Who wins at a path ----------

  /** All profiles of the directory hold no markers, make none and agree on kinds. */
  predicate CompatibleDirectory(dir: Directory) {
    && (forall a :: a in dir && dir[a].Dict? ==> NoMarkersBelow(Body(dir[a])))
    && (forall a, b :: a in dir && b in dir && dir[a].Dict? && dir[b].Dict? ==>
          SameKinds(Body(dir[a]), Body(dir[b])) && NoneMade(Body(dir[a]), Body(dir[b])))
  }

  lemma {:induction false} LayersInDirectory(dir: Directory, id: string, seen: seq<string>, d: Value)
    requires d in Layers(dir, id, seen)
    ensures exists a :: a in dir && dir[a] == d
    decreases Unvisited(dir, seen), 0
  {
    VisitShrinks(dir, seen, id);
    LayersWithin(dir, id, seen);
    if d != dir[id] { ParentLayersInDirectory(dir, ParentsOf(dir[id]).value, seen + [id], d); }
  }

  lemma {:induction false} ParentLayersInDirectory(dir: Directory, parents: seq<string>, seen: seq<string>, d: Value)
    requires d in ParentLayers(dir, parents, seen)
    ensures exists a :: a in dir && dir[a] == d
    decreases Unvisited(dir, seen), |parents|
  {
    if d in Layers(dir, parents[0], seen) { LayersInDirectory(dir, parents[0], seen, d); }
    else { ParentLayersInDirectory(dir, parents[1..], seen, d); }
  }

  lemma LayersAreCompatible(dir: Directory, id: string)
    requires CompatibleDirectory(dir)
    ensures Compatible(Layers(dir, id, []))
  {
    hide SameKinds, NoneMade, NoMarkersBelow, Layers;
    forall d | d in Layers(dir, id, []) ensures exists a :: a in dir && dir[a] == d { LayersInDirectory(dir, id, [], d); }
  }

  /** The last of the profiles that has anything at the path, if one has. */
  ghost predicate LastWith(profiles: seq<Value>, path: seq<string>, i: nat)
    requires forall p :: p in profiles ==> p.Dict?
    requires i < |profiles|
  {
    At(profiles[i], path) != Absent && forall j :: i < j < |profiles| ==> At(profiles[j], path) == Absent
  }

  lemma LayersAppend(docs: seq<Value>, more: seq<Value>, path: seq<string>)
    requires (forall d :: d in docs ==> d.Dict?) && forall d :: d in more ==> d.Dict?
    requires path != []
    ensures LastAt(docs + more, path) == if LastAt(more, path) != Absent then LastAt(more, path) else LastAt(docs, path)
    decreases |more|
  {
    if more == [] {
      assert docs + more == docs;
    } else {
      var n := |more| - 1;
      assert (docs + more)[..|docs + more| - 1] == docs + more[..n];
      LayersAppend(docs, more[..n], path);
    }
  }

  lemma {:induction false} LayersBelowLess(dir: Directory, id: string, seen: seq<string>, less: seq<string>)
    requires Load(dir, id, seen).Ok? && Within(less, seen)
    ensures Layers(dir, id, less) == Layers(dir, id, seen)
    decreases Unvisited(dir, seen), 0
  {
    hide Resolve, DeepMerge;
    VisitShrinks(dir, seen, id);
    VisitShrinks(dir, less, id);
    ParentLayersBelowLess(dir, ParentsOf(dir[id]).value, seen + [id], less + [id], EMPTY);
  }

  lemma {:induction false} ParentLayersBelowLess(dir: Directory, parents: seq<string>, seen: seq<string>, less: seq<string>, merged: Value)
    requires merged.Dict? && LoadParents(dir, parents, seen, merged).Ok? && Within(less, seen)
    ensures ParentLayers(dir, parents, less) == ParentLayers(dir, parents, seen)
    decreases Unvisited(dir, seen), |parents|
  {
    hide Resolve, DeepMerge;
    if parents != [] {
      LayersBelowLess(dir, parents[0], seen, less);
      ParentLayersBelowLess(dir, parents[1..], seen, less, DeepMerge(merged, Load(dir, parents[0], seen).value));
    }
  }

  lemma {:induction false} ParentLayersByPath(dir: Directory, parents: seq<string>, seen: seq<string>, merged: Value, path: seq<string>)
    requires CompatibleDirectory(dir) && path != [] && path[0] != "inherits"
    requires merged.Dict? && LoadParents(dir, parents, seen, merged).Ok?
    ensures forall i :: 0 <= i < |parents| ==> Load(dir, parents[i], []).Ok?
    ensures forall i :: 0 <= i < |parents| && LastWith(Loaded(dir, parents), path, i) ==>
      LastAt(ParentLayers(dir, parents, seen), path) == At(Load(dir, parents[i], []).value, path)
    ensures (forall i :: 0 <= i < |parents| ==> At(Load(dir, parents[i], []).value, path) == Absent) ==>
      LastAt(ParentLayers(dir, parents, seen), path) == Absent
    decreases |parents|
  {
    hide CompatibleDirectory, Load, Layers, DeepMerge, LastAt, At;
    if parents == [] {
      NoLayers(dir, seen, path);
    } else {
      FirstParent(dir, parents, seen, merged);
      var first, rest := Load(dir, parents[0], []).value, parents[1..];
      ParentLayersByPath(dir, rest, seen, DeepMerge(merged, first), path);
      LayersAreCompatible(dir, parents[0]);
      LoadedByPath(dir, parents[0], path);
      LayersBelowLess(dir, parents[0], seen, []);
      LayersAppend(Layers(dir, parents[0], seen), ParentLayers(dir, rest, seen), path);
      FirstLayers(dir, parents, seen);
      RestOfParents(dir, parents, path);
    }
  }

  lemma NoLayers(dir: Directory, seen: seq<string>, path: seq<string>)
    requires path != []
    ensures LastAt(ParentLayers(dir, [], seen), path) == Absent
  {}

  lemma FirstLayers(dir: Directory, parents: seq<string>, seen: seq<string>)
    requires parents != []
    ensures ParentLayers(dir, parents, seen) == Layers(dir, parents[0], seen) + ParentLayers(dir, parents[1..], seen)
  {}

  /** Who is last among the parents, seen from the rest of them. */
  lemma RestOfParents(dir: Directory, parents: seq<string>, path: seq<string>)
    requires parents != [] && forall i :: 0 <= i < |parents| ==> Load(dir, parents[i], []).Ok?
    ensures forall i :: 0 < i < |parents| && LastWith(Loaded(dir, parents), path, i) ==>
      LastWith(Loaded(dir, parents[1..]), path, i - 1)
    ensures LastWith(Loaded(dir, parents), path, 0) ==>
      At(Load(dir, parents[0], []).value, path) != Absent
      && forall j :: 0 <= j < |parents| - 1 ==> At(Load(dir, parents[1..][j], []).value, path) == Absent
  {
    hide Load, At;
    var all, rest := Loaded(dir, parents), Loaded(dir, parents[1..]);
    forall j | 0 <= j < |rest| ensures rest[j] == all[j + 1] {}
    if LastWith(all, path, 0) {
      forall j | 0 <= j < |parents| - 1 ensures At(Load(dir, parents[1..][j], []).value, path) == Absent { assert rest[j] == all[j + 1]; }
    }
  }

  /** In a compatible directory a profile has at a path what its own file has there; else
    * what the last of the parents it declares that has anything there has; else nothing. */
  lemma LaterParentWins(dir: Directory, id: string, parents: seq<string>, path: seq<string>)
    requires CompatibleDirectory(dir) && Load(dir, id, []).Ok? && Declares(dir[id], parents)
    requires path != [] && path[0] != "inherits"
    ensures forall i :: 0 <= i < |parents| ==> Load(dir, parents[i], []).Ok?
    ensures At(dir[id], path) != Absent ==> At(Load(dir, id, []).value, path) == At(dir[id], path)
    ensures forall i :: 0 <= i < |parents| && At(dir[id], path) == Absent && LastWith(Loaded(dir, parents), path, i) ==>
      At(Load(dir, id, []).value, path) == At(Load(dir, parents[i], []).value, path)
    ensures At(dir[id], path) == Absent && (forall i :: 0 <= i < |parents| ==> At(Load(dir, parents[i], []).value, path) == Absent) ==>
      At(Load(dir, id, []).value, path) == Absent
  {
    hide CompatibleDirectory, DeepMerge, Resolve, LastAt;
    ParentsAreDeclared(dir[id], parents);
    VisitShrinks(dir, [], id);
    LayersAreCompatible(dir, id);
    LoadedByPath(dir, id, path);
    LayersWithin(dir, id, []);
    ParentLayersByPath(dir, parents, [] + [id], EMPTY, path);
    LayersAppend(ParentLayers(dir, parents, [] + [id]), [dir[id]], path);
    OwnLayer(dir[id], path);
  }

  lemma OwnLayer(doc: Value, path: seq<string>)
    requires doc.Dict? && path != [] && path[0] != "inherits"
    ensures LastAt([doc], path) == At(doc, path)
  {
    assert [doc][..0] == [];
  }

  /** Two parents in a list: at a path where the child is silent, the second one's entry
    * shows if it has one, and else the first one's. */
  lemma SecondParentWins(dir: Directory, id: string, a: string, b: string, path: seq<string>)
    requires CompatibleDirectory(dir) && Load(dir, id, []).Ok?
    requires "inherits" in dir[id].fields && dir[id].fields["inherits"] == List([Str(a), Str(b)])
    requires path != [] && path[0] != "inherits" && At(dir[id], path) == Absent
    ensures Load(dir, a, []).Ok? && Load(dir, b, []).Ok?
    ensures At(Load(dir, id, []).value, path) ==
      if At(Load(dir, b, []).value, path) != Absent then At(Load(dir, b, []).value, path) else At(Load(dir, a, []).value, path)
  {
    TwoDeclared(dir, id, a, b, path);
  }

  lemma TwoDeclared(dir: Directory, id: string, a: string, b: string, path: seq<string>)
    requires CompatibleDirectory(dir) && Load(dir, id, []).Ok? && Declares(dir[id], [a, b])
    requires path != [] && path[0] != "inherits" && At(dir[id], path) == Absent
    ensures Load(dir, a, []).Ok? && Load(dir, b, []).Ok?
    ensures At(Load(dir, id, []).value, path) ==
      if At(Load(dir, b, []).value, path) != Absent then At(Load(dir, b, []).value, path) else At(Load(dir, a, []).value, path)
  {
    hide CompatibleDirectory, Load, Declares, At;
    LaterParentWins(dir, id, [a, b], path);
    assert [a, b][0] == a && [a, b][1] == b;
    var profiles := Loaded(dir, [a, b]);
    if At(profiles[1], path) != Absent {
      assert LastWith(profiles, path, 1);
    } else if At(profiles[0], path) != Absent {
      assert LastWith(profiles, path, 0);
    }
  }

  /** The same for a string of two characters, which names two profiles. */
  lemma SecondCharacterWins(dir: Directory, id: string, c: char, d: char, path: seq<string>)
    requires CompatibleDirectory(dir) && Load(dir, id, []).Ok?
    requires "inherits" in dir[id].fields && dir[id].fields["inherits"] == Str([c, d])
    requires path != [] && path[0] != "inherits" && At(dir[id], path) == Absent
    ensures Load(dir, [c], []).Ok? && Load(dir, [d], []).Ok?
    ensures At(Load(dir, id, []).value, path) ==
      if At(Load(dir, [d], []).value, path) != Absent then At(Load(dir, [d], []).value, path) else At(Load(dir, [c], []).value, path)
  {
    TwoDeclared(dir, id, [c], [d], path);
  }

  /** Without parents, in any empty form, a profile is its own file with the markers resolved. */
  lemma NoParents(dir: Directory, id: string)
    requires Load(dir, id, []).Ok?
    requires "inherits" !in dir[id].fields ||
      dir[id].fields["inherits"] in {Null, Bool(false), Num(0), Str(""), List([]), EMPTY}
    ensures Load(dir, id, []).value == Resolve(dir[id])
  {
    LoadedFromParents(dir, id, []);
  }
}
