/** Loading a capability profile through its `inherits` graph. */
module Profiles {
  import opened Outcomes
  import opened Merge

  /** The profile directory: each agent id with its parsed YAML document. */
  type Directory = map<string, Value>

  datatype LoadError =
    | Cycle(path: seq<string>)
    | NotFound(id: string)
    | NotAMapping(id: string)
    | MissingFields(id: string)
    | NotIterable(id: string)
    | Unmodelled(id: string)

  const INHERITS := "inherits"

  /** A non-empty mapping, which the program iterates in file order, or a list with a name
    * that is not a string: the model does not follow these. */
  predicate StrangeParents(doc: Value)
    requires doc.Dict?
  {
    INHERITS in doc.fields && match doc.fields[INHERITS]
      case List(items) => !(forall v :: v in items ==> v.Str?)
      case Dict(fields) => fields != map[]
      case _ => false
  }

  /** The parent ids of a document; None when iterating over `inherits` fails, or for
    * strange parents. */
  function ParentsOf(doc: Value): Option<seq<string>>
    requires doc.Dict?
  {
    if INHERITS !in doc.fields then Some([])
    else match doc.fields[INHERITS]
      case Null => Some([])
      case Bool(b) => if b then None else Some([])
      case Num(n) => if n == 0 then Some([]) else None
      case Str(s) => Some(seq(|s|, i requires 0 <= i < |s| => [s[i]]))
      case Stamp(_) => None
      case List(items) => if forall v :: v in items ==> v.Str? then Some(Names(items)) else None
      case Dict(fields) => if fields == map[] then Some([]) else None
  }

  function Names(items: seq<Value>): seq<string>
    requires forall v :: v in items ==> v.Str?
  {
    seq(|items|, i requires 0 <= i < |items| => items[i].s)
  }

  predicate HasRequired(doc: Value)
    requires doc.Dict?
  {
    "profile_version" in doc.fields && "agent_type" in doc.fields
  }

  function WithoutParents(doc: Value): Value
    requires doc.Dict?
  {
    Dict(doc.fields[INHERITS := List([])])
  }

  /** The termination measure: the files that are not yet on the inheritance path. */
  function Unvisited(dir: Directory, seen: seq<string>): nat {
    |dir.Keys - (set s | s in seen)|
  }

  lemma VisitShrinks(dir: Directory, seen: seq<string>, id: string)
    requires id in dir && id !in seen
    ensures Unvisited(dir, seen + [id]) < Unvisited(dir, seen)
  {
    var before := dir.Keys - (set s | s in seen);
    var after := dir.Keys - (set s | s in seen + [id]);
    assert after == before - {id};
  }

  function Load(dir: Directory, id: string, seen: seq<string>): (r: Result<Value, LoadError>)
    ensures r.Ok? ==> r.value.Dict?
    decreases Unvisited(dir, seen), 0
  {
    if id in seen then Err(Cycle(seen + [id]))
    else if id !in dir then Err(NotFound(id))
    else if !dir[id].Dict? then Err(NotAMapping(id))
    else if !HasRequired(dir[id]) then Err(MissingFields(id))
    else match ParentsOf(dir[id])
      case None => Err(if StrangeParents(dir[id]) then Unmodelled(id) else NotIterable(id))
      case Some(parents) =>
        if parents == [] then Ok(Resolve(dir[id]))
        else
          VisitShrinks(dir, seen, id);
          var merged :- LoadParents(dir, parents, seen + [id], EMPTY);
          Ok(Resolve(WithoutParents(DeepMerge(merged, dir[id]))))
  }

  /** Loads the parents from left to right, each merged over what came before. */
  function LoadParents(dir: Directory, parents: seq<string>, seen: seq<string>, merged: Value): (r: Result<Value, LoadError>)
    requires merged.Dict?
    ensures r.Ok? ==> r.value.Dict?
    decreases Unvisited(dir, seen), |parents|
  {
    if parents == [] then Ok(merged)
    else
      var first :- Load(dir, parents[0], seen);
      LoadParents(dir, parents[1..], seen, DeepMerge(merged, first))
  }

  /** The program's loader: a recursive call for each parent inside a loop. */
  method LoadProfile(dir: Directory, id: string, seen: seq<string>) returns (r: Result<Value, LoadError>)
    ensures r == Load(dir, id, seen)
    decreases Unvisited(dir, seen)
  {
    if id in seen { return Err(Cycle(seen + [id])); }
    if id !in dir { return Err(NotFound(id)); }
    var profile := dir[id];
    if !profile.Dict? { return Err(NotAMapping(id)); }
    if !HasRequired(profile) { return Err(MissingFields(id)); }
    var inherits := ParentsOf(profile);
    if inherits == None { return Err(if StrangeParents(profile) then Unmodelled(id) else NotIterable(id)); }
    if inherits.value == [] {
      var resolved := ResolveMarkers(profile);
      return Ok(resolved);
    }
    VisitShrinks(dir, seen, id);
    var merged := EMPTY;
    var nextSeen := seen + [id];
    for i := 0 to |inherits.value|
      invariant merged.Dict?
      invariant LoadParents(dir, inherits.value, nextSeen, EMPTY) == LoadParents(dir, inherits.value[i..], nextSeen, merged)
    {
      assert inherits.value[i..][1..] == inherits.value[i + 1..];
      var parent := LoadProfile(dir, inherits.value[i], nextSeen);
      if parent.Err? { return parent; }
      merged := MergeProfiles(merged, parent.value);
    }
    var final := MergeProfiles(merged, profile);
    var resolved := ResolveMarkers(WithoutParents(final));
    r := Ok(resolved);
  }

  // ---------- The inherits graph ----------

  predicate ValidDoc(dir: Directory, id: string) {
    id in dir && dir[id].Dict? && HasRequired(dir[id]) && ParentsOf(dir[id]).Some?
  }

  predicate Inherits(dir: Directory, a: string, b: string) {
    ValidDoc(dir, a) && b in ParentsOf(dir[a]).value
  }

  predicate IsPath(dir: Directory, id: string, p: seq<string>)
    decreases p
  {
    p != [] && p[0] == id && (|p| > 1 ==> Inherits(dir, id, p[1]) && IsPath(dir, p[1], p[1..]))
  }

  function End(p: seq<string>): string
    requires p != []
  {
    p[|p| - 1]
  }

  predicate Repeats(seen: seq<string>, p: seq<string>)
    requires p != []
  {
    End(p) in seen + p[..|p| - 1]
  }

  ghost predicate Loadable(dir: Directory, id: string, seen: seq<string>) {
    forall p :: IsPath(dir, id, p) ==> ValidDoc(dir, End(p)) && !Repeats(seen, p)
  }

  lemma PathStep(dir: Directory, id: string, parent: string, p: seq<string>, seen: seq<string>)
    requires Inherits(dir, id, parent) && IsPath(dir, parent, p)
    ensures IsPath(dir, id, [id] + p) && End([id] + p) == End(p)
    ensures Repeats(seen, [id] + p) <==> Repeats(seen + [id], p)
  {
    var q := [id] + p;
    assert q[1] == parent && q[1..] == p;
    assert seen + q[..|q| - 1] == seen + [id] + p[..|p| - 1];
  }

  lemma {:induction false} LoadIffLoadable(dir: Directory, id: string, seen: seq<string>)
    ensures Load(dir, id, seen).Ok? <==> Loadable(dir, id, seen)
    decreases Unvisited(dir, seen), 0
  {
    assert IsPath(dir, id, [id]) && End([id]) == id && (Repeats(seen, [id]) <==> id in seen) by {
      assert seen + [id][..0] == seen;
    }
    if id !in seen && ValidDoc(dir, id) {
      VisitShrinks(dir, seen, id);
      var parents := ParentsOf(dir[id]).value;
      ParentsIffLoadable(dir, parents, seen + [id], EMPTY);
      if Loadable(dir, id, seen) {
        forall b, p | b in parents && IsPath(dir, b, p)
          ensures ValidDoc(dir, End(p)) && !Repeats(seen + [id], p)
        {
          PathStep(dir, id, b, p, seen);
        }
      }
      if forall b :: b in parents ==> Loadable(dir, b, seen + [id]) {
        forall p | IsPath(dir, id, p) ensures ValidDoc(dir, End(p)) && !Repeats(seen, p) {
          if |p| > 1 {
            PathStep(dir, id, p[1], p[1..], seen);
            assert p == [id] + p[1..];
          } else {
            assert p == [id];
          }
        }
      }
    }
  }

  lemma {:induction false} ParentsIffLoadable(dir: Directory, parents: seq<string>, seen: seq<string>, merged: Value)
    requires merged.Dict?
    ensures LoadParents(dir, parents, seen, merged).Ok? <==> forall b :: b in parents ==> Loadable(dir, b, seen)
    decreases Unvisited(dir, seen), |parents|
  {
    if parents != [] {
      LoadIffLoadable(dir, parents[0], seen);
      var first := Load(dir, parents[0], seen);
      if first.Ok? {
        ParentsIffLoadable(dir, parents[1..], seen, DeepMerge(merged, first.value));
      }
    }
  }

  /** Loading succeeds exactly when every profile reachable over `inherits` exists and
    * is valid, and no path of the graph from here runs into itself. */
  lemma LoadSucceedsIff(dir: Directory, id: string)
    ensures Load(dir, id, []).Ok? <==>
      (forall p :: IsPath(dir, id, p) ==> ValidDoc(dir, End(p)))
      && (forall p :: IsPath(dir, id, p) ==> End(p) !in p[..|p| - 1])
  {
    LoadIffLoadable(dir, id, []);
    assert forall p: seq<string> :: p != [] ==> [] + p[..|p| - 1] == p[..|p| - 1];
  }

  /** Every edge that can be reached from the profile goes down. */
  ghost predicate Descends(dir: Directory, id: string, rank: string -> nat) {
    forall p, b :: IsPath(dir, id, p) && Inherits(dir, End(p), b) ==> rank(b) < rank(End(p))
  }

  /** A profile that reaches no cycle always loads, however often a profile is shared by
    * several children: diamonds are not mistaken for cycles. */
  lemma AcyclicGraphLoads(dir: Directory, id: string, rank: string -> nat)
    requires Descends(dir, id, rank)
    requires forall p :: IsPath(dir, id, p) ==> ValidDoc(dir, End(p))
    ensures Load(dir, id, []).Ok?
  {
    forall p | IsPath(dir, id, p) ensures End(p) !in p[..|p| - 1] {
      forall i | 0 <= i < |p| - 1 ensures p[i] != End(p) { RanksFall(dir, id, p, rank, i); }
    }
    LoadSucceedsIff(dir, id);
  }

  lemma {:induction false} RanksFall(dir: Directory, id: string, p: seq<string>, rank: string -> nat, i: nat)
    requires Descends(dir, id, rank)
    requires IsPath(dir, id, p) && i < |p| - 1
    ensures rank(End(p)) < rank(p[i])
    decreases p
  {
    assert IsPath(dir, id, [id]) && End([id]) == id;
    if |p| > 2 {
      forall q, b | IsPath(dir, p[1], q) && Inherits(dir, End(q), b) ensures rank(b) < rank(End(q)) {
        PathStep(dir, id, p[1], q, []);
      }
      RanksFall(dir, p[1], p[1..], rank, if i > 0 then i - 1 else 0);
    }
  }

  /** What an error says about the path that led to it. */
  predicate Explains(dir: Directory, seen: seq<string>, p: seq<string>, error: LoadError)
    requires p != []
  {
    match error
    case Cycle(c) => c == seen + p && Repeats(seen, p)
    case NotFound(x) => End(p) == x && x !in dir
    case NotAMapping(x) => End(p) == x && x in dir && !dir[x].Dict?
    case MissingFields(x) => End(p) == x && x in dir && dir[x].Dict? && !HasRequired(dir[x])
    case NotIterable(x) => End(p) == x && x in dir && dir[x].Dict? && ParentsOf(dir[x]) == None && !StrangeParents(dir[x])
    case Unmodelled(x) => End(p) == x && x in dir && dir[x].Dict? && StrangeParents(dir[x])
  }

  lemma {:induction false} LoadErrorPath(dir: Directory, id: string, seen: seq<string>) returns (p: seq<string>)
    requires Load(dir, id, seen).Err?
    ensures IsPath(dir, id, p) && Explains(dir, seen, p, Load(dir, id, seen).error)
    decreases Unvisited(dir, seen), 0
  {
    p := [id];
    if id !in seen && ValidDoc(dir, id) {
      VisitShrinks(dir, seen, id);
      var parents := ParentsOf(dir[id]).value;
      var i, q := ParentErrorPath(dir, parents, seen + [id], EMPTY);
      PathStep(dir, id, parents[i], q, seen);
      p := [id] + q;
      assert seen + [id] + q == seen + p;
    } else {
      assert seen + [id][..0] == seen;
    }
  }

  lemma {:induction false} ParentErrorPath(dir: Directory, parents: seq<string>, seen: seq<string>, merged: Value)
    returns (i: nat, p: seq<string>)
    requires merged.Dict? && LoadParents(dir, parents, seen, merged).Err?
    ensures i < |parents| && IsPath(dir, parents[i], p)
    ensures Explains(dir, seen, p, LoadParents(dir, parents, seen, merged).error)
    decreases Unvisited(dir, seen), |parents|
  {
    var first := Load(dir, parents[0], seen);
    if first.Err? {
      p := LoadErrorPath(dir, parents[0], seen);
      i := 0;
    } else {
      i, p := ParentErrorPath(dir, parents[1..], seen, DeepMerge(merged, first.value));
      i := i + 1;
    }
  }

  /** Every error is real: a cycle error spells out a path of the graph that comes back
    * to one of its own profiles, and any other error names a reachable bad profile. */
  lemma LoadErrorIsReal(dir: Directory, id: string)
    requires Load(dir, id, []).Err?
    ensures exists p :: IsPath(dir, id, p) && Explains(dir, [], p, Load(dir, id, []).error)
    ensures Load(dir, id, []).error.Cycle? ==>
      var c := Load(dir, id, []).error.path;
      IsPath(dir, id, c) && End(c) in c[..|c| - 1]
  {
    var p := LoadErrorPath(dir, id, []);
    assert [] + p == p && [] + p[..|p| - 1] == p[..|p| - 1];
  }

  // ---------- Flattening ----------

  /** The documents that make up a profile, ancestors first, depth first, repeats kept. */
  function Layers(dir: Directory, id: string, seen: seq<string>): (r: seq<Value>)
    ensures forall d :: d in r ==> d.Dict?
    decreases Unvisited(dir, seen), 0
  {
    if id in seen || !ValidDoc(dir, id) then []
    else
      VisitShrinks(dir, seen, id);
      ParentLayers(dir, ParentsOf(dir[id]).value, seen + [id]) + [dir[id]]
  }

  function ParentLayers(dir: Directory, parents: seq<string>, seen: seq<string>): (r: seq<Value>)
    ensures forall d :: d in r ==> d.Dict?
    decreases Unvisited(dir, seen), |parents|
  {
    if parents == [] then []
    else Layers(dir, parents[0], seen) + ParentLayers(dir, parents[1..], seen)
  }

  /** A document up to its `inherits` key. */
  function Body(doc: Value): (r: Value)
    requires doc.Dict?
    ensures r.Dict?
  {
    Dict(doc.fields - {INHERITS})
  }

  /** The left fold of the deep merge over document bodies. */
  function Fold(base: Value, docs: seq<Value>): (r: Value)
    requires base.Dict? && forall d :: d in docs ==> d.Dict?
    ensures r.Dict?
  {
    if docs == [] then base
    else DeepMerge(Fold(base, docs[..|docs| - 1]), Body(docs[|docs| - 1]))
  }

  /** The documents hold no marker below their top levels, no two of them make one, and
    * they agree on which key paths are dicts. */
  predicate Compatible(docs: seq<Value>) {
    && (forall d :: d in docs ==> d.Dict? && NoMarkersBelow(Body(d)))
    && (forall d, e :: d in docs && e in docs ==> SameKinds(Body(d), Body(e)) && NoneMade(Body(d), Body(e)))
  }

  predicate Fits(x: Value, y: Value)
    requires x.Dict? && y.Dict?
  {
    SameKinds(x, y) && SameKinds(y, x) && NoneMade(x, y) && NoneMade(y, x)
  }

  predicate FitsAll(v: Value, docs: seq<Value>)
    requires forall d :: d in docs ==> d.Dict?
  {
    v.Dict? && NoMarkersBelow(v) && forall d :: d in docs ==> Fits(Body(d), v)
  }

  lemma {:induction false} SameKindsSymmetric(x: Value, y: Value)
    requires x.Dict? && y.Dict? && SameKinds(x, y)
    ensures SameKinds(y, x)
  {
    forall k | k in x.fields && k in y.fields && IsTree(x.fields[k]) && IsTree(y.fields[k])
      ensures SameKinds(y.fields[k], x.fields[k])
    {
      SameKindsSymmetric(x.fields[k], y.fields[k]);
    }
  }

  lemma {:induction false} MergeClean(x: Value, y: Value)
    requires x.Dict? && y.Dict? && Clean(x) && Clean(y)
    ensures Clean(DeepMerge(x, y))
    decreases y
  {
    var m := DeepMerge(x, y);
    forall k | k in m.fields ensures Clean(m.fields[k]) {
      if k in y.fields {
        assert m.fields[k] == MergeAt(x, y, k);
        if k in x.fields && IsTree(x.fields[k]) && IsTree(y.fields[k]) {
          MergeClean(x.fields[k], y.fields[k]);
        }
      }
    }
  }

  lemma MergeFits(x: Value, y: Value, docs: seq<Value>)
    requires Compatible(docs) && FitsAll(x, docs) && FitsAll(y, docs) && SameKinds(x, y) && NoneMade(x, y)
    ensures FitsAll(DeepMerge(x, y), docs)
  {
    hide SameKinds, NoneMade, NoMarkersBelow;
    MergeNoMarkersBelow(x, y);
    forall d | d in docs ensures Fits(Body(d), DeepMerge(x, y)) {
      SameKindsMerge(Body(d), x, y);
      SameKindsSymmetric(Body(d), DeepMerge(x, y));
      NoneMadeOver(Body(d), x, y);
      NoneMadeUnder(x, y, Body(d));
    }
  }

  lemma {:induction false} FoldFits(base: Value, docs: seq<Value>, all: seq<Value>)
    requires Compatible(all) && FitsAll(base, all) && forall d :: d in docs ==> d in all
    ensures FitsAll(Fold(base, docs), all)
  {
    if docs != [] {
      var n := |docs| - 1;
      FoldFits(base, docs[..n], all);
      hide NoMarkersBelow, SameKinds, NoneMade;
      assert Fits(Body(docs[n]), Fold(base, docs[..n]));
      MergeFits(Fold(base, docs[..n]), Body(docs[n]), all);
    }
  }

  lemma EmptyFits(docs: seq<Value>)
    requires Compatible(docs)
    ensures FitsAll(EMPTY, docs)
  {}

  /** Folding on top of a base is merging the fold over the base. */
  lemma {:induction false} FoldOnto(base: Value, docs: seq<Value>, all: seq<Value>)
    requires Compatible(all) && FitsAll(base, all) && forall d :: d in docs ==> d in all
    ensures Fold(base, docs) == DeepMerge(base, Fold(EMPTY, docs))
  {
    if docs == [] {
      assert DeepMerge(base, EMPTY).fields == base.fields;
    } else {
      var n := |docs| - 1;
      var rest, last := Fold(EMPTY, docs[..n]), Body(docs[n]);
      FoldOnto(base, docs[..n], all);
      EmptyFits(all);
      FoldFits(EMPTY, docs[..n], all);
      FoldKinds(base, docs[..n], all);
      hide NoMarkersBelow, SameKinds, NoneMade, NoSandwich, GroupsEither;
      assert Fits(Body(docs[n]), rest);
      SameKindsNoSandwich(base, rest, last);
      OnlySandwichesMatter(base, rest, last);
      MergeAssociative(base, rest, last);
    }
  }

  lemma {:induction false} FoldKinds(base: Value, docs: seq<Value>, all: seq<Value>)
    requires Compatible(all) && FitsAll(base, all) && forall d :: d in docs ==> d in all
    ensures SameKinds(base, Fold(EMPTY, docs)) && NoneMade(base, Fold(EMPTY, docs))
  {
    if docs != [] {
      var n := |docs| - 1;
      var rest, last := Fold(EMPTY, docs[..n]), Body(docs[n]);
      FoldKinds(base, docs[..n], all);
      EmptyFits(all);
      FoldFits(EMPTY, docs[..n], all);
      hide NoMarkersBelow, SameKinds, NoneMade;
      assert Fits(Body(docs[n]), rest) && Fits(Body(docs[n]), base);
      SameKindsMerge(base, rest, last);
      NoneMadeOver(base, rest, last);
    }
  }

  lemma {:induction false} FoldConcat(base: Value, xs: seq<Value>, ys: seq<Value>)
    requires base.Dict? && (forall d :: d in xs ==> d.Dict?) && forall d :: d in ys ==> d.Dict?
    ensures Fold(base, xs + ys) == Fold(Fold(base, xs), ys)
  {
    if ys == [] {
      assert xs + ys == xs;
    } else {
      FoldConcat(base, xs, ys[..|ys| - 1]);
      assert (xs + ys)[..|xs + ys| - 1] == xs + ys[..|ys| - 1];
    }
  }

  lemma BodyOfMerge(x: Value, y: Value)
    requires x.Dict? && y.Dict?
    ensures Body(DeepMerge(x, y)) == DeepMerge(Body(x), Body(y))
  {
    var l, r := Body(DeepMerge(x, y)).fields, DeepMerge(Body(x), Body(y)).fields;
    assert l.Keys == r.Keys;
    forall k | k in l ensures l[k] == r[k] {
      if k in y.fields {
        assert l[k] == MergeAt(x, y, k) == MergeAt(Body(x), Body(y), k);
      }
    }
  }

  lemma LayersWithin(dir: Directory, id: string, seen: seq<string>)
    requires id !in seen && ValidDoc(dir, id)
    ensures Layers(dir, id, seen) == ParentLayers(dir, ParentsOf(dir[id]).value, seen + [id]) + [dir[id]]
  {}

  lemma BodyOfResolve(v: Value)
    requires v.Dict? && NoMarkersBelow(Body(v))
    ensures Body(Resolve(v)) == Body(v)
  {
    hide NoMarkersBelow, IsMarker;
    ResolveFixesMarkerFree(Body(v));
    var l, r := Body(Resolve(v)).fields, Resolve(Body(v)).fields;
    forall k | k in r ensures l[k] == r[k] { assert l[k] == ResolveAt(v, k) && r[k] == ResolveAt(Body(v), k); }
    assert l == r;
  }

  lemma RootDocument(doc: Value)
    requires doc.Dict? && NoMarkersBelow(Body(doc))
    ensures Body(Resolve(doc)) == Body(doc) == DeepMerge(EMPTY, Body(doc))
  {
    hide NoMarkersBelow, Resolve, DeepMerge;
    BodyOfResolve(doc);
    MergeAbsorbs(EMPTY, Body(doc));
  }

  lemma ChildOverParents(merged: Value, doc: Value)
    requires merged.Dict? && doc.Dict? && NoMarkersBelow(Body(merged)) && NoMarkersBelow(Body(doc))
    requires NoneMade(Body(merged), Body(doc))
    ensures Body(Resolve(WithoutParents(DeepMerge(merged, doc)))) == DeepMerge(Body(merged), Body(doc))
  {
    var m := WithoutParents(DeepMerge(merged, doc));
    MergeNoMarkersBelow(Body(merged), Body(doc));
    BodyOfMerge(merged, doc);
    assert Body(m).fields == Body(DeepMerge(merged, doc)).fields;
    BodyOfResolve(m);
  }

  lemma {:induction false} FlattenLoad(dir: Directory, id: string, seen: seq<string>)
    requires Load(dir, id, seen).Ok? && Compatible(Layers(dir, id, seen))
    ensures Body(Load(dir, id, seen).value) == Fold(EMPTY, Layers(dir, id, seen))
    decreases Unvisited(dir, seen), 0
  {
    hide NoMarkersBelow, SameKinds, NoneMade, Resolve, Fits, Fold, DeepMerge, Body;
    var doc, parents := dir[id], ParentsOf(dir[id]).value;
    var layers, above := Layers(dir, id, seen), ParentLayers(dir, parents, seen + [id]);
    VisitShrinks(dir, seen, id);
    LayersWithin(dir, id, seen);
    assert doc in layers;
    if parents == [] {
      assert above == [] && layers == [doc];
      RootDocument(doc);
      FoldOne(doc);
    } else {
      assert forall d :: d in above ==> d in layers;
      EmptyFits(layers);
      FewerFit(EMPTY, above, layers);
      EmptyBody();
      FlattenParents(dir, parents, seen + [id], EMPTY);
      FoldChild(above, doc, LoadParents(dir, parents, seen + [id], EMPTY).value);
    }
  }

  lemma FoldOne(doc: Value)
    requires doc.Dict?
    ensures Fold(EMPTY, [doc]) == DeepMerge(EMPTY, Body(doc))
  {
    assert [doc][..0] == [];
  }

  lemma FoldChild(above: seq<Value>, doc: Value, merged: Value)
    requires Compatible(above + [doc]) && merged.Dict? && Body(merged) == Fold(EMPTY, above)
    ensures Body(Resolve(WithoutParents(DeepMerge(merged, doc)))) == Fold(EMPTY, above + [doc])
  {
    hide NoMarkersBelow, SameKinds, NoneMade, Resolve;
    var layers := above + [doc];
    assert layers[..|above|] == above && doc in layers;
    EmptyFits(layers);
    FoldFits(EMPTY, above, layers);
    assert Fits(Body(doc), Body(merged));
    ChildOverParents(merged, doc);
  }

  lemma EmptyBody()
    ensures Body(EMPTY) == EMPTY
  {
    assert Body(EMPTY).fields == map[];
  }

  lemma FewerFit(v: Value, docs: seq<Value>, all: seq<Value>)
    requires Compatible(all) && FitsAll(v, all) && forall d :: d in docs ==> d in all
    ensures Compatible(docs) && FitsAll(v, docs)
  {
    hide NoMarkersBelow, SameKinds, NoneMade;
  }

  lemma {:induction false} FlattenParents(dir: Directory, parents: seq<string>, seen: seq<string>, merged: Value)
    requires merged.Dict? && LoadParents(dir, parents, seen, merged).Ok?
    requires Compatible(ParentLayers(dir, parents, seen))
    requires FitsAll(Body(merged), ParentLayers(dir, parents, seen))
    ensures Body(LoadParents(dir, parents, seen, merged).value) == Fold(Body(merged), ParentLayers(dir, parents, seen))
    decreases Unvisited(dir, seen), |parents|
  {
    hide NoMarkersBelow, SameKinds, NoneMade, Fits, Resolve;
    if parents != [] {
      var all := ParentLayers(dir, parents, seen);
      var here, rest := Layers(dir, parents[0], seen), ParentLayers(dir, parents[1..], seen);
      assert forall d :: d in here ==> d in all;
      assert forall d :: d in rest ==> d in all;
      FlattenLoad(dir, parents[0], seen);
      var first := Load(dir, parents[0], seen).value;
      FoldOnto(Body(merged), here, all);
      FoldFits(Body(merged), here, all);
      BodyOfMerge(merged, first);
      FewerFit(Body(DeepMerge(merged, first)), rest, all);
      FlattenParents(dir, parents[1..], seen, DeepMerge(merged, first));
      FoldConcat(Body(merged), here, rest);
    }
  }

  /** Flattening: a profile whose layers hold no markers, make none and agree on kinds
    * loads to the left fold of the deep merge over all its layers, up to the `inherits` key. */
  lemma Flattening(dir: Directory, id: string)
    requires Load(dir, id, []).Ok? && Compatible(Layers(dir, id, []))
    ensures Body(Load(dir, id, []).value) == Fold(EMPTY, Layers(dir, id, []))
  {
    FlattenLoad(dir, id, []);
  }

  /** Layers without the reserved key that agree on kinds are compatible. */
  lemma CleanIsCompatible(docs: seq<Value>)
    requires forall d :: d in docs ==> d.Dict? && Clean(d)
    requires forall d, e :: d in docs && e in docs ==> SameKinds(Body(d), Body(e))
    ensures Compatible(docs)
  {
    hide SameKinds, NoneMade;
    forall d | d in docs ensures Clean(Body(d)) && NoMarkersBelow(Body(d)) && OnlyMarkersDoc(Body(d)) { CleanHasNoMarkers(Body(d)); }
    forall d, e | d in docs && e in docs ensures NoneMade(Body(d), Body(e)) { OnlyMarkersMakeNone(Body(d), Body(e)); }
  }

  /** What the last of the documents that has anything at the path has there. */
  function LastAt(docs: seq<Value>, path: seq<string>): Node
    requires forall d :: d in docs ==> d.Dict?
  {
    if docs == [] then (if path == [] then Tree else Absent)
    else
      var last := At(Body(docs[|docs| - 1]), path);
      if last != Absent then last else LastAt(docs[..|docs| - 1], path)
  }

  lemma {:induction false} FoldByPath(docs: seq<Value>, all: seq<Value>, path: seq<string>)
    requires Compatible(all) && forall d :: d in docs ==> d in all
    ensures At(Fold(EMPTY, docs), path) == LastAt(docs, path)
  {
    hide NoMarkersBelow, SameKinds, NoneMade;
    if docs != [] {
      var n := |docs| - 1;
      var front := Fold(EMPTY, docs[..n]);
      FoldByPath(docs[..n], all, path);
      EmptyFits(all);
      FoldFits(EMPTY, docs[..n], all);
      assert Fits(Body(docs[n]), front);
      PlainMergeByPath(front, Body(docs[n]), path);
    }
  }

  /** So such a profile has at every key path what the last of its layers that has anything
    * there has, over the whole graph. */
  lemma LoadedByPath(dir: Directory, id: string, path: seq<string>)
    requires Load(dir, id, []).Ok? && Compatible(Layers(dir, id, []))
    requires path == [] || path[0] != INHERITS
    ensures At(Load(dir, id, []).value, path) == LastAt(Layers(dir, id, []), path)
  {
    hide Load, Layers, Fold, LastAt, Compatible;
    Flattening(dir, id);
    FoldByPath(Layers(dir, id, []), Layers(dir, id, []), path);
    assert At(Load(dir, id, []).value, path) == At(Body(Load(dir, id, []).value), path);
  }

  // ---------- Markers in loaded profiles ----------

  predicate WellMarkedDoc(doc: Value) {
    IsTree(doc) && WellMarked(doc)
  }

  lemma {:induction false} LoadCleans(dir: Directory, id: string, seen: seq<string>)
    requires Load(dir, id, seen).Ok? && forall d :: d in Layers(dir, id, seen) ==> WellMarkedDoc(d)
    ensures Clean(Load(dir, id, seen).value)
    decreases Unvisited(dir, seen), 0
  {
    var doc, parents := dir[id], ParentsOf(dir[id]).value;
    VisitShrinks(dir, seen, id);
    LayersWithin(dir, id, seen);
    assert doc in Layers(dir, id, seen);
    if parents == [] {
      ResolveCleans(doc);
    } else {
      assert forall d :: d in ParentLayers(dir, parents, seen + [id]) ==> d in Layers(dir, id, seen);
      ParentsClean(dir, parents, seen + [id], EMPTY);
      var merged := LoadParents(dir, parents, seen + [id], EMPTY).value;
      CleanHasNoMarkers(merged);
      MergeWellMarked(merged, doc);
      ResolveCleans(WithoutParents(DeepMerge(merged, doc)));
    }
  }

  lemma {:induction false} ParentsClean(dir: Directory, parents: seq<string>, seen: seq<string>, merged: Value)
    requires merged.Dict? && Clean(merged) && LoadParents(dir, parents, seen, merged).Ok?
    requires forall d :: d in ParentLayers(dir, parents, seen) ==> WellMarkedDoc(d)
    ensures Clean(LoadParents(dir, parents, seen, merged).value)
    decreases Unvisited(dir, seen), |parents|
  {
    if parents != [] {
      assert forall d :: d in Layers(dir, parents[0], seen) ==> d in ParentLayers(dir, parents, seen);
      assert forall d :: d in ParentLayers(dir, parents[1..], seen) ==> d in ParentLayers(dir, parents, seen);
      LoadCleans(dir, parents[0], seen);
      var first := Load(dir, parents[0], seen).value;
      MergeClean(merged, first);
      ParentsClean(dir, parents[1..], seen, DeepMerge(merged, first));
    }
  }

  /** If the reserved key occurs only in well-formed markers with clean payloads, a loaded
    * profile holds no marker outside lists. */
  lemma LoadedMarkers(dir: Directory, id: string)
    requires Load(dir, id, []).Ok? && forall d :: d in Layers(dir, id, []) ==> WellMarkedDoc(d)
    ensures NoMarkers(Load(dir, id, []).value)
  {
    LoadCleans(dir, id, []);
    CleanHasNoMarkers(Load(dir, id, []).value);
  }

  /** What the parents of a profile hand down to it. */
  function Inherited(dir: Directory, id: string): (r: Value)
    requires Load(dir, id, []).Ok?
    ensures r.Dict?
  {
    VisitShrinks(dir, [], id);
    LoadParents(dir, ParentsOf(dir[id]).value, [] + [id], EMPTY).value
  }

  predicate IsOwnMarker(doc: Value, path: seq<string>) {
    doc.Dict? && path != [] && path[0] != INHERITS && At(doc, path).Leaf? && IsMarker(At(doc, path).v)
  }

  /** Each marker of a profile's own file forces its payload against everything inherited,
    * whatever that is, unless merging the two makes a marker above it. */
  lemma LoadedPayload(dir: Directory, id: string, path: seq<string>)
    requires Load(dir, id, []).Ok? && IsOwnMarker(dir[id], path)
    ensures ValueAt(Load(dir, id, []).value, path) ==
      match WayTo(Inherited(dir, id), dir[id], path)
      case Open => Some(At(dir[id], path).v.fields[VALUE])
      case Cut(payload, rest) => ValueAt(payload, rest)
  {
    var doc, parents := dir[id], ParentsOf(dir[id]).value;
    MarkerForcesPayload(Inherited(dir, id), doc, path);
    if parents == [] {
      assert DeepMerge(EMPTY, doc).fields == doc.fields;
    } else {
      OtherKeysStay(DeepMerge(Inherited(dir, id), doc), path);
    }
  }

  lemma OtherKeysStay(v: Value, path: seq<string>)
    requires v.Dict? && path != [] && path[0] != INHERITS
    ensures ValueAt(Resolve(WithoutParents(v)), path) == ValueAt(Resolve(v), path)
  {}

  predicate OnlyMarkersDoc(doc: Value) {
    IsTree(doc) && OnlyMarkers(doc)
  }

  lemma {:induction false} LoadOnlyMarkers(dir: Directory, id: string, seen: seq<string>)
    requires Load(dir, id, seen).Ok? && forall d :: d in Layers(dir, id, seen) ==> OnlyMarkersDoc(d)
    ensures OnlyMarkersDoc(Load(dir, id, seen).value)
    decreases Unvisited(dir, seen), 0
  {
    var doc, parents := dir[id], ParentsOf(dir[id]).value;
    VisitShrinks(dir, seen, id);
    LayersWithin(dir, id, seen);
    assert doc in Layers(dir, id, seen);
    if parents == [] {
      ResolveOnlyMarkers(doc);
    } else {
      assert forall d :: d in ParentLayers(dir, parents, seen + [id]) ==> d in Layers(dir, id, seen);
      ParentsOnlyMarkers(dir, parents, seen + [id], EMPTY);
      var merged := LoadParents(dir, parents, seen + [id], EMPTY).value;
      MergeOnlyMarkers(merged, doc);
      ResolveOnlyMarkers(WithoutParents(DeepMerge(merged, doc)));
    }
  }

  lemma {:induction false} ParentsOnlyMarkers(dir: Directory, parents: seq<string>, seen: seq<string>, merged: Value)
    requires merged.Dict? && OnlyMarkersDoc(merged) && LoadParents(dir, parents, seen, merged).Ok?
    requires forall d :: d in ParentLayers(dir, parents, seen) ==> OnlyMarkersDoc(d)
    ensures OnlyMarkersDoc(LoadParents(dir, parents, seen, merged).value)
    decreases Unvisited(dir, seen), |parents|
  {
    if parents != [] {
      assert forall d :: d in Layers(dir, parents[0], seen) ==> d in ParentLayers(dir, parents, seen);
      assert forall d :: d in ParentLayers(dir, parents[1..], seen) ==> d in ParentLayers(dir, parents, seen);
      LoadOnlyMarkers(dir, parents[0], seen);
      var first := Load(dir, parents[0], seen).value;
      MergeOnlyMarkers(merged, first);
      ParentsOnlyMarkers(dir, parents[1..], seen, DeepMerge(merged, first));
    }
  }

  /** Nothing is cut when the reserved key occurs only in markers, in any layer and in the
    * payloads too. */
  lemma InheritedLeavesOpen(dir: Directory, id: string, path: seq<string>)
    requires Load(dir, id, []).Ok? && forall d :: d in Layers(dir, id, []) ==> OnlyMarkersDoc(d)
    requires path != []
    ensures WayTo(Inherited(dir, id), dir[id], path) == Open
  {
    var parents, above := ParentsOf(dir[id]).value, [] + [id];
    LayersWithin(dir, id, []);
    assert dir[id] in Layers(dir, id, []);
    VisitShrinks(dir, [], id);
    assert forall d :: d in ParentLayers(dir, parents, above) ==> d in Layers(dir, id, []);
    ParentsOnlyMarkers(dir, parents, above, EMPTY);
    OnlyMarkersLeaveOpen(Inherited(dir, id), dir[id], path);
  }
}
