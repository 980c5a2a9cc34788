/** YAML values, the deep merge of profiles, and replacement markers. */
module Merge {
  import opened Outcomes

  /** A parsed YAML value. `Stamp` stands for the scalars that JSON cannot write, such as timestamps. */
  datatype Value =
    | Null
    | Bool(b: bool)
    | Num(n: int)
    | Str(s: string)
    | Stamp(text: string)
    | List(items: seq<Value>)
    | Dict(fields: map<string, Value>)

  const REPLACE := "__replace__"
  const VALUE := "value"
  const EMPTY := Dict(map[])

  predicate IsMarker(v: Value) {
    v.Dict? && REPLACE in v.fields && v.fields[REPLACE] == Bool(true) && VALUE in v.fields
  }

  /** A marker, by its keys. */
  lemma MarkerKeys(v: Value)
    ensures IsMarker(v) <==>
      v.Dict? && "__replace__" in v.fields && v.fields["__replace__"] == Bool(true) && "value" in v.fields
  {}

  /** A dict that merging descends into. */
  predicate IsTree(v: Value) {
    v.Dict? && !IsMarker(v)
  }

  // ---------- Merging ----------

  function DeepMerge(base: Value, overlay: Value): (r: Value)
    requires base.Dict? && overlay.Dict?
    ensures r.Dict? && r.fields.Keys == base.fields.Keys + overlay.fields.Keys
    decreases overlay
  {
    Dict(map k | k in base.fields.Keys + overlay.fields.Keys ::
      if k !in overlay.fields then base.fields[k] else MergeAt(base, overlay, k))
  }

  function MergeAt(base: Value, overlay: Value, k: string): Value
    requires base.Dict? && overlay.Dict? && k in overlay.fields
    decreases overlay, 0
  {
    if k in base.fields && IsTree(base.fields[k]) && IsTree(overlay.fields[k])
    then DeepMerge(base.fields[k], overlay.fields[k])
    else overlay.fields[k]
  }

  /** The program's loop over the overlay's items. */
  method MergeProfiles(base: Value, overlay: Value) returns (r: Value)
    requires base.Dict? && overlay.Dict?
    ensures r == DeepMerge(base, overlay)
    decreases overlay
  {
    var result := base.fields;
    var todo := overlay.fields.Keys;
    while todo != {}
      invariant todo <= overlay.fields.Keys
      invariant result.Keys == base.fields.Keys + (overlay.fields.Keys - todo)
      invariant forall k :: k in result ==>
        (result[k] == if k in overlay.fields && k !in todo then MergeAt(base, overlay, k) else base.fields[k])
    {
      var key :| key in todo;
      todo := todo - {key};
      var overlayVal := overlay.fields[key];
      if IsMarker(overlayVal) {
        result := result[key := overlayVal];
      } else if key in result && result[key].Dict? && overlayVal.Dict? && !IsMarker(result[key]) {
        var inner := MergeProfiles(result[key], overlayVal);
        result := result[key := inner];
      } else {
        result := result[key := overlayVal];
      }
    }
    r := Dict(result);
    assert r.fields == DeepMerge(base, overlay).fields;
  }

  // ---------- What sits at a key path ----------

  datatype Node = Absent | Tree | Leaf(v: Value)

  /** What a reader finds at a key path below a value: nothing, a subtree, or a leaf (a
    * marker is a leaf). */
  function NodeAt(v: Value, path: seq<string>): Node
    decreases path
  {
    if path == [] then (if IsTree(v) then Tree else Leaf(v))
    else if IsTree(v) && path[0] in v.fields then NodeAt(v.fields[path[0]], path[1..])
    else Absent
  }

  /** Some key above the end of the path holds a leaf. */
  predicate Blocked(v: Value, path: seq<string>)
    decreases path
  {
    path != [] && (!IsTree(v) || (path[0] in v.fields && Blocked(v.fields[path[0]], path[1..])))
  }

  /** What a reader finds at a key path of a profile. The profile itself is always a tree:
    * neither merging nor resolving ever asks whether its top level is a marker. */
  function At(v: Value, path: seq<string>): Node
    requires v.Dict?
  {
    if path == [] then Tree
    else if path[0] in v.fields then NodeAt(v.fields[path[0]], path[1..])
    else Absent
  }

  predicate BlockedAt(v: Value, path: seq<string>)
    requires v.Dict?
  {
    path != [] && path[0] in v.fields && Blocked(v.fields[path[0]], path[1..])
  }

  lemma TreesAgree(v: Value, path: seq<string>)
    requires IsTree(v)
    ensures At(v, path) == NodeAt(v, path) && BlockedAt(v, path) == Blocked(v, path)
  {}

  /** The reserved key occurs nowhere outside lists. */
  predicate Clean(v: Value) {
    v.Dict? ==> REPLACE !in v.fields && forall k :: k in v.fields ==> Clean(v.fields[k])
  }

  /** Outside lists, the reserved key occurs only in markers; a payload may hold markers again. */
  predicate OnlyMarkers(v: Value) {
    v.Dict? ==>
      if REPLACE in v.fields then IsMarker(v) && OnlyMarkers(v.fields[VALUE])
      else forall k :: k in v.fields ==> OnlyMarkers(v.fields[k])
  }

  /** The same, and the payloads are clean. */
  predicate WellMarked(v: Value) {
    v.Dict? ==>
      if REPLACE in v.fields then IsMarker(v) && Clean(v.fields[VALUE])
      else forall k :: k in v.fields ==> WellMarked(v.fields[k])
  }

  lemma {:induction false} MergeWellMarked(base: Value, overlay: Value)
    requires IsTree(base) && IsTree(overlay) && WellMarked(base) && WellMarked(overlay)
    ensures IsTree(DeepMerge(base, overlay)) && WellMarked(DeepMerge(base, overlay))
    decreases overlay
  {
    forall k | k in DeepMerge(base, overlay).fields ensures WellMarked(DeepMerge(base, overlay).fields[k]) {
      if k in base.fields && k in overlay.fields && IsTree(base.fields[k]) && IsTree(overlay.fields[k]) {
        MergeWellMarked(base.fields[k], overlay.fields[k]);
      }
    }
  }

  // ---------- Markers that merging makes ----------

  /** Both dicts have a dict to descend into at the key. */
  predicate BothTrees(x: Value, y: Value, k: string)
    requires x.Dict? && y.Dict?
  {
    k in x.fields && k in y.fields && IsTree(x.fields[k]) && IsTree(y.fields[k])
  }

  /** The reserved key of one dict and the payload key of the other make a marker of the two. */
  predicate MakesMarker(x: Value, y: Value)
    requires x.Dict? && y.Dict?
  {
    && (if REPLACE in y.fields then y.fields[REPLACE] == Bool(true)
        else REPLACE in x.fields && x.fields[REPLACE] == Bool(true))
    && (VALUE in x.fields || VALUE in y.fields)
  }

  lemma MadeMarkers(x: Value, y: Value)
    requires x.Dict? && y.Dict?
    ensures IsMarker(DeepMerge(x, y)) <==> MakesMarker(x, y)
  {
    if REPLACE in y.fields { assert DeepMerge(x, y).fields[REPLACE] == MergeAt(x, y, REPLACE); }
  }

  /** No common subtree of the two is merged into a marker. */
  predicate NoneMade(x: Value, y: Value)
    requires x.Dict? && y.Dict?
  {
    forall k :: k in x.fields && BothTrees(x, y, k) ==>
      !MakesMarker(x.fields[k], y.fields[k]) && NoneMade(x.fields[k], y.fields[k])
  }

  /** Layers whose reserved keys all stand in markers make no new ones. */
  lemma {:induction false} OnlyMarkersMakeNone(x: Value, y: Value)
    requires IsTree(x) && IsTree(y) && OnlyMarkers(x) && OnlyMarkers(y)
    ensures !MakesMarker(x, y) && NoneMade(x, y)
  {
    forall k | k in x.fields && BothTrees(x, y, k)
      ensures !MakesMarker(x.fields[k], y.fields[k]) && NoneMade(x.fields[k], y.fields[k])
    {
      OnlyMarkersMakeNone(x.fields[k], y.fields[k]);
    }
  }

  /** Of three layers that pairwise make no markers, two merged make none with the third. */
  lemma {:induction false} NoneMadeUnder(x: Value, y: Value, z: Value)
    requires x.Dict? && y.Dict? && z.Dict? && NoneMade(x, y) && NoneMade(x, z) && NoneMade(y, z)
    ensures NoneMade(DeepMerge(x, y), z)
    decreases z
  {
    var m := DeepMerge(x, y);
    forall k | k in m.fields && BothTrees(m, z, k) ensures !MakesMarker(m.fields[k], z.fields[k]) && NoneMade(m.fields[k], z.fields[k]) {
      if k in y.fields { assert m.fields[k] == MergeAt(x, y, k); }
      if BothTrees(x, y, k) {
        MakesMarkerUnder(x.fields[k], y.fields[k], z.fields[k]);
        NoneMadeUnder(x.fields[k], y.fields[k], z.fields[k]);
      }
    }
  }

  lemma MakesMarkerUnder(x: Value, y: Value, z: Value)
    requires x.Dict? && y.Dict? && z.Dict? && !MakesMarker(x, y) && !MakesMarker(x, z) && !MakesMarker(y, z)
    ensures !MakesMarker(DeepMerge(x, y), z)
  {
    if REPLACE in y.fields { assert DeepMerge(x, y).fields[REPLACE] == MergeAt(x, y, REPLACE); }
  }

  lemma {:induction false} NoneMadeOver(z: Value, x: Value, y: Value)
    requires x.Dict? && y.Dict? && z.Dict? && NoneMade(x, y) && NoneMade(z, x) && NoneMade(z, y)
    ensures NoneMade(z, DeepMerge(x, y))
  {
    var m := DeepMerge(x, y);
    forall k | k in z.fields && BothTrees(z, m, k) ensures !MakesMarker(z.fields[k], m.fields[k]) && NoneMade(z.fields[k], m.fields[k]) {
      if k in y.fields { assert m.fields[k] == MergeAt(x, y, k); }
      if BothTrees(x, y, k) {
        MakesMarkerOver(z.fields[k], x.fields[k], y.fields[k]);
        NoneMadeOver(z.fields[k], x.fields[k], y.fields[k]);
      }
    }
  }

  lemma MakesMarkerOver(z: Value, x: Value, y: Value)
    requires x.Dict? && y.Dict? && z.Dict? && !MakesMarker(x, y) && !MakesMarker(z, x) && !MakesMarker(z, y)
    ensures !MakesMarker(z, DeepMerge(x, y))
  {
    if REPLACE in y.fields { assert DeepMerge(x, y).fields[REPLACE] == MergeAt(x, y, REPLACE); }
  }

  lemma {:induction false} MergeOnlyMarkers(base: Value, overlay: Value)
    requires IsTree(base) && IsTree(overlay) && OnlyMarkers(base) && OnlyMarkers(overlay)
    ensures IsTree(DeepMerge(base, overlay)) && OnlyMarkers(DeepMerge(base, overlay))
    decreases overlay
  {
    forall k | k in DeepMerge(base, overlay).fields ensures OnlyMarkers(DeepMerge(base, overlay).fields[k]) {
      if BothTrees(base, overlay, k) { MergeOnlyMarkers(base.fields[k], overlay.fields[k]); }
    }
  }

  // ---------- The merge by path ----------

  /** Merging the two, or two common subtrees on the way to the end of the path, makes a marker. */
  predicate MarkerMade(base: Value, overlay: Value, path: seq<string>)
    requires base.Dict? && overlay.Dict?
    decreases path
  {
    MakesMarker(base, overlay) || MadeOnWay(base, overlay, path)
  }

  /** Merging two common subtrees on the way to the end of the path makes a marker. */
  predicate MadeOnWay(base: Value, overlay: Value, path: seq<string>)
    requires base.Dict? && overlay.Dict?
    decreases path, 0
  {
    path != [] && BothTrees(base, overlay, path[0])
    && MarkerMade(base.fields[path[0]], overlay.fields[path[0]], path[1..])
  }

  /** The overlay's entry wins; otherwise the base's entry shows exactly when the overlay
    * has no leaf above the path. */
  function Overlaid(base: Value, overlay: Value, path: seq<string>): Node
    requires base.Dict? && overlay.Dict?
  {
    if At(overlay, path) != Absent then At(overlay, path)
    else if BlockedAt(overlay, path) then Absent
    else At(base, path)
  }

  /** The merge has at a key path what the path rule says, exactly when no marker is made
    * on the way or the rule finds nothing there anyway. */
  lemma {:induction false} MergeByPath(base: Value, overlay: Value, path: seq<string>)
    requires base.Dict? && overlay.Dict?
    ensures At(DeepMerge(base, overlay), path) == Overlaid(base, overlay, path) <==>
      !MadeOnWay(base, overlay, path) || Overlaid(base, overlay, path) == Absent
    decreases path
  {
    if path != [] {
      var k, rest := path[0], path[1..];
      if k in overlay.fields { assert DeepMerge(base, overlay).fields[k] == MergeAt(base, overlay, k); }
      if BothTrees(base, overlay, k) {
        var x, y := base.fields[k], overlay.fields[k];
        MadeMarkers(x, y);
        MergeByPath(x, y, rest);
        TreesAgree(x, rest);
        TreesAgree(y, rest);
        if !MakesMarker(x, y) { TreesAgree(DeepMerge(x, y), rest); }
      } else if k in overlay.fields && !IsTree(overlay.fields[k]) && |path| > 1 {
        assert Blocked(overlay.fields[k], rest);
      } else if k in base.fields && !IsTree(base.fields[k]) && |path| > 1 {
        assert NodeAt(base.fields[k], rest) == Absent;
      }
    }
  }

  lemma {:induction false} SameNodes(x: Value, y: Value)
    requires forall path :: NodeAt(x, path) == NodeAt(y, path)
    ensures x == y
    decreases x
  {
    assert NodeAt(x, []) == NodeAt(y, []);
    if IsTree(x) {
      forall path ensures At(x, path) == At(y, path) {
        TreesAgree(x, path);
        TreesAgree(y, path);
      }
      SameAtEveryPath(x, y);
    }
  }

  /** Path lookups determine a profile, so `MergeByPath` fixes the merge completely. */
  lemma {:induction false} SameAtEveryPath(x: Value, y: Value)
    requires x.Dict? && y.Dict? && forall path :: At(x, path) == At(y, path)
    ensures x == y
    decreases x, 0
  {
    forall k: string ensures k in x.fields <==> k in y.fields {
      assert At(x, [k]) == At(y, [k]) && [k][1..] == [];
    }
    forall k | k in x.fields ensures x.fields[k] == y.fields[k] {
      forall path ensures NodeAt(x.fields[k], path) == NodeAt(y.fields[k], path) {
        assert ([k] + path)[1..] == path;
        assert At(x, [k] + path) == At(y, [k] + path);
      }
      SameNodes(x.fields[k], y.fields[k]);
    }
    assert x.fields == y.fields;
  }

  // ---------- When merging is associative ----------

  /** Every key path of x is present in z, or ends below a leaf of z. */
  predicate Covers(z: Value, x: Value)
    requires z.Dict? && x.Dict?
  {
    forall k :: k in x.fields ==>
      k in z.fields && (IsTree(x.fields[k]) && IsTree(z.fields[k]) ==> Covers(z.fields[k], x.fields[k]))
  }

  lemma {:induction false} MergeAbsorbs(x: Value, z: Value)
    requires x.Dict? && z.Dict?
    ensures DeepMerge(x, z) == z <==> Covers(z, x)
    decreases z
  {
    var m := DeepMerge(x, z);
    forall k | k in x.fields && k in z.fields && IsTree(x.fields[k]) && IsTree(z.fields[k])
      ensures m.fields[k] == z.fields[k] <==> Covers(z.fields[k], x.fields[k])
    {
      MergeAbsorbs(x.fields[k], z.fields[k]);
      assert m.fields[k] == MergeAt(x, z, k);
    }
    if Covers(z, x) {
      forall k | k in m.fields ensures k in z.fields && m.fields[k] == z.fields[k] {
        if k in x.fields { assert m.fields[k] == MergeAt(x, z, k); }
      }
      assert m.fields == z.fields;
    }
  }

  /** x shows nowhere below y and z, even where y and z together make a marker. */
  predicate Hidden(x: Value, y: Value, z: Value)
    requires x.Dict? && y.Dict? && z.Dict?
  {
    forall k :: k in x.fields ==>
      && (k in y.fields || k in z.fields)
      && (k !in y.fields && BothTrees(x, z, k) ==> Covers(z.fields[k], x.fields[k]))
      && (k !in z.fields && BothTrees(x, y, k) ==> Covers(y.fields[k], x.fields[k]))
      && (BothTrees(x, y, k) && BothTrees(y, z, k) ==>
            if MakesMarker(x.fields[k], y.fields[k]) then Covers(z.fields[k], y.fields[k])
            else Hidden(x.fields[k], y.fields[k], z.fields[k]))
  }

  lemma {:induction false} HiddenMerge(x: Value, y: Value, z: Value)
    requires x.Dict? && y.Dict? && z.Dict?
    ensures DeepMerge(y, z) == DeepMerge(DeepMerge(x, y), z) <==> Hidden(x, y, z)
    decreases x, 1
  {
    var l, r := DeepMerge(y, z), DeepMerge(DeepMerge(x, y), z);
    forall k | k in x.fields && (k in y.fields || k in z.fields)
      ensures l.fields[k] == r.fields[k] <==>
        && (k !in y.fields && BothTrees(x, z, k) ==> Covers(z.fields[k], x.fields[k]))
        && (k !in z.fields && BothTrees(x, y, k) ==> Covers(y.fields[k], x.fields[k]))
        && (BothTrees(x, y, k) && BothTrees(y, z, k) ==>
              if MakesMarker(x.fields[k], y.fields[k]) then Covers(z.fields[k], y.fields[k])
              else Hidden(x.fields[k], y.fields[k], z.fields[k]))
    {
      HiddenAt(x, y, z, k);
    }
    forall k | k in l.fields && k !in x.fields ensures k in r.fields && l.fields[k] == r.fields[k] {
      if k in y.fields { assert DeepMerge(x, y).fields[k] == MergeAt(x, y, k) == y.fields[k]; }
      if k in z.fields { assert l.fields[k] == MergeAt(y, z, k) && r.fields[k] == MergeAt(DeepMerge(x, y), z, k); }
    }
    if Hidden(x, y, z) { assert l.fields == r.fields; }
  }

  lemma {:induction false} HiddenAt(x: Value, y: Value, z: Value, k: string)
    requires x.Dict? && y.Dict? && z.Dict? && k in x.fields && (k in y.fields || k in z.fields)
    ensures DeepMerge(y, z).fields[k] == DeepMerge(DeepMerge(x, y), z).fields[k] <==>
      && (k !in y.fields && BothTrees(x, z, k) ==> Covers(z.fields[k], x.fields[k]))
      && (k !in z.fields && BothTrees(x, y, k) ==> Covers(y.fields[k], x.fields[k]))
      && (BothTrees(x, y, k) && BothTrees(y, z, k) ==>
            if MakesMarker(x.fields[k], y.fields[k]) then Covers(z.fields[k], y.fields[k])
            else Hidden(x.fields[k], y.fields[k], z.fields[k]))
    decreases x, 0
  {
    if k !in y.fields {
      if BothTrees(x, z, k) { MergeAbsorbs(x.fields[k], z.fields[k]); }
    } else if BothTrees(x, y, k) {
      MadeMarkers(x.fields[k], y.fields[k]);
      if k !in z.fields {
        MergeAbsorbs(x.fields[k], y.fields[k]);
      } else if BothTrees(y, z, k) {
        MergeAbsorbs(y.fields[k], z.fields[k]);
        HiddenMerge(x.fields[k], y.fields[k], z.fields[k]);
      }
    }
  }

  lemma {:induction false} TwoAbsorbed(x: Value, y: Value, z: Value)
    requires x.Dict? && y.Dict? && z.Dict?
    ensures DeepMerge(x, DeepMerge(y, z)) == z <==> Covers(z, x) && Covers(z, y)
    decreases z
  {
    MergeAbsorbs(y, z);
    MergeAbsorbs(x, z);
    var yz := DeepMerge(y, z);
    var m := DeepMerge(x, yz);
    if m == z {
      assert yz.fields.Keys <= m.fields.Keys;
      forall k | k in yz.fields ensures k in z.fields && yz.fields[k] == z.fields[k] {
        assert m.fields[k] == MergeAt(x, yz, k) && yz.fields[k] == MergeAt(y, z, k);
        if BothTrees(y, z, k) && BothTrees(x, yz, k) {
          TwoAbsorbed(x.fields[k], y.fields[k], z.fields[k]);
          MergeAbsorbs(y.fields[k], z.fields[k]);
        }
      }
      assert yz.fields == z.fields;
    }
  }

  /** No key path is a dict in x, a leaf in y and again a dict in z, unless z covers x
    * there; and where two neighbours make a marker, what the other grouping would let
    * through is covered. */
  predicate GroupsEither(x: Value, y: Value, z: Value)
    requires x.Dict? && y.Dict? && z.Dict?
    decreases x, y, z, 0
  {
    forall k :: k in x.fields && k in y.fields && k in z.fields && IsTree(x.fields[k]) && IsTree(z.fields[k]) ==>
      EitherWay(x.fields[k], y.fields[k], z.fields[k])
  }

  predicate EitherWay(x: Value, y: Value, z: Value)
    requires IsTree(x) && IsTree(z)
    decreases x, y, z, 1
  {
    if !IsTree(y) then Covers(z, x)
    else if MakesMarker(x, y) then Covers(z, y) && (MakesMarker(y, z) || Covers(z, x))
    else if MakesMarker(y, z) then Hidden(x, y, z)
    else GroupsEither(x, y, z)
  }

  /** Three layers may be grouped either way exactly when `GroupsEither` holds of them. */
  lemma {:induction false} MergeAssociative(x: Value, y: Value, z: Value)
    requires x.Dict? && y.Dict? && z.Dict?
    ensures DeepMerge(x, DeepMerge(y, z)) == DeepMerge(DeepMerge(x, y), z) <==> GroupsEither(x, y, z)
    decreases z, 1
  {
    hide EitherWay;
    var l, r := DeepMerge(x, DeepMerge(y, z)), DeepMerge(DeepMerge(x, y), z);
    forall k | k in l.fields ensures k in r.fields {}
    forall k | k in l.fields
      ensures l.fields[k] == r.fields[k] <==>
        (k in x.fields && k in y.fields && k in z.fields && IsTree(x.fields[k]) && IsTree(z.fields[k]) ==>
          EitherWay(x.fields[k], y.fields[k], z.fields[k]))
    {
      MergeAssociativeAt(x, y, z, k);
    }
    if GroupsEither(x, y, z) {
      assert l.fields == r.fields;
    }
  }

  lemma {:induction false} MergeAssociativeAt(x: Value, y: Value, z: Value, k: string)
    requires x.Dict? && y.Dict? && z.Dict?
    requires k in x.fields || k in y.fields || k in z.fields
    ensures
      DeepMerge(x, DeepMerge(y, z)).fields[k] == DeepMerge(DeepMerge(x, y), z).fields[k] <==>
      (k in x.fields && k in y.fields && k in z.fields && IsTree(x.fields[k]) && IsTree(z.fields[k]) ==>
        EitherWay(x.fields[k], y.fields[k], z.fields[k]))
    decreases z, 0
  {
    hide GroupsEither, Hidden, Covers, MakesMarker;
    if BothTrees(y, z, k) { MadeMarkers(y.fields[k], z.fields[k]); }
    if BothTrees(x, y, k) { MadeMarkers(x.fields[k], y.fields[k]); }
    if BothTrees(x, z, k) && k in y.fields {
      var a, b, c := x.fields[k], y.fields[k], z.fields[k];
      if !IsTree(b) {
        MergeAbsorbs(a, c);
      } else if MakesMarker(a, b) {
        if MakesMarker(b, c) { MergeAbsorbs(b, c); } else { TwoAbsorbed(a, b, c); }
      } else if MakesMarker(b, c) {
        HiddenMerge(a, b, c);
      } else {
        MergeAssociative(a, b, c);
      }
    }
  }

  // ---------- Layers that make no markers ----------

  /** No key path is a dict in x, a leaf in y and again a dict in z, unless z covers x there. */
  predicate NoSandwich(x: Value, y: Value, z: Value)
    requires x.Dict? && y.Dict? && z.Dict?
  {
    forall k :: k in x.fields && k in y.fields && k in z.fields && IsTree(x.fields[k]) && IsTree(z.fields[k]) ==>
      if IsTree(y.fields[k]) then NoSandwich(x.fields[k], y.fields[k], z.fields[k])
      else Covers(z.fields[k], x.fields[k])
  }

  /** When neighbours make no markers, only a dict that is cut by a leaf and reopened matters. */
  lemma {:induction false} OnlySandwichesMatter(x: Value, y: Value, z: Value)
    requires x.Dict? && y.Dict? && z.Dict? && NoneMade(x, y) && NoneMade(y, z)
    ensures GroupsEither(x, y, z) <==> NoSandwich(x, y, z)
  {
    forall k | k in x.fields && k in y.fields && k in z.fields && IsTree(x.fields[k]) && IsTree(z.fields[k])
      ensures EitherWay(x.fields[k], y.fields[k], z.fields[k]) <==>
        if IsTree(y.fields[k]) then NoSandwich(x.fields[k], y.fields[k], z.fields[k])
        else Covers(z.fields[k], x.fields[k])
    {
      if IsTree(y.fields[k]) {
        assert BothTrees(x, y, k) && BothTrees(y, z, k);
        OnlySandwichesMatter(x.fields[k], y.fields[k], z.fields[k]);
      }
    }
  }

  /** A leaf between two dicts: one grouping drops what is below it, the other does not. */
  lemma GroupingMatters(k: string, a: string, b: string, v: Value)
    requires a != b && !v.Dict? && REPLACE !in {k, a, b}
    ensures
      var x, y, z := Dict(map[k := Dict(map[a := v])]), Dict(map[k := v]), Dict(map[k := Dict(map[b := v])]);
      DeepMerge(x, DeepMerge(y, z)) != DeepMerge(DeepMerge(x, y), z)
  {
    var x, y, z := Dict(map[k := Dict(map[a := v])]), Dict(map[k := v]), Dict(map[k := Dict(map[b := v])]);
    var xk, yz, xy := x.fields[k], DeepMerge(y, z), DeepMerge(x, y);
    assert yz.fields[k] == MergeAt(y, z, k) == z.fields[k];
    assert xy.fields[k] == MergeAt(x, y, k) == v;
    assert DeepMerge(x, yz).fields[k] == MergeAt(x, yz, k) == DeepMerge(xk, z.fields[k]);
    assert DeepMerge(xy, z).fields[k] == MergeAt(xy, z, k) == z.fields[k];
    assert a in DeepMerge(xk, z.fields[k]).fields;
  }

  /** The layers agree on which of their common key paths are dicts. */
  predicate SameKinds(x: Value, y: Value)
    requires x.Dict? && y.Dict?
  {
    forall k :: k in x.fields && k in y.fields ==>
      (IsTree(x.fields[k]) <==> IsTree(y.fields[k]))
      && (IsTree(x.fields[k]) && IsTree(y.fields[k]) ==> SameKinds(x.fields[k], y.fields[k]))
  }

  lemma {:induction false} SameKindsNoSandwich(x: Value, y: Value, z: Value)
    requires x.Dict? && y.Dict? && z.Dict? && SameKinds(x, y) && SameKinds(y, z)
    ensures NoSandwich(x, y, z)
  {
    forall k | k in x.fields && k in y.fields && k in z.fields && IsTree(x.fields[k]) && IsTree(y.fields[k]) && IsTree(z.fields[k])
      ensures NoSandwich(x.fields[k], y.fields[k], z.fields[k])
    {
      SameKindsNoSandwich(x.fields[k], y.fields[k], z.fields[k]);
    }
  }

  lemma {:induction false} SameKindsMerge(x: Value, y: Value, z: Value)
    requires x.Dict? && y.Dict? && z.Dict? && NoneMade(y, z)
    requires SameKinds(x, y) && SameKinds(x, z) && SameKinds(y, z)
    ensures SameKinds(x, DeepMerge(y, z))
    decreases z
  {
    forall k | k in x.fields && k in y.fields && k in z.fields && IsTree(y.fields[k]) && IsTree(z.fields[k])
      ensures SameKinds(x.fields[k], DeepMerge(y.fields[k], z.fields[k])) && IsTree(DeepMerge(y.fields[k], z.fields[k]))
    {
      MadeMarkers(y.fields[k], z.fields[k]);
      SameKindsMerge(x.fields[k], y.fields[k], z.fields[k]);
    }
  }

  // ---------- Replacement markers ----------

  function Resolve(v: Value): (r: Value)
    requires v.Dict?
    ensures r.Dict? && r.fields.Keys == v.fields.Keys
  {
    Dict(map k | k in v.fields :: ResolveAt(v, k))
  }

  function ResolveAt(v: Value, k: string): Value
    requires v.Dict? && k in v.fields
    decreases v, 0
  {
    if IsMarker(v.fields[k]) then v.fields[k].fields[VALUE]
    else if v.fields[k].Dict? then Resolve(v.fields[k])
    else v.fields[k]
  }

  /** The program's loop over the profile's items. */
  method ResolveMarkers(v: Value) returns (r: Value)
    requires v.Dict?
    ensures r == Resolve(v)
  {
    var result: map<string, Value> := map[];
    var todo := v.fields.Keys;
    while todo != {}
      invariant todo <= v.fields.Keys
      invariant result.Keys == v.fields.Keys - todo
      invariant forall k :: k in result ==> result[k] == ResolveAt(v, k)
    {
      var key :| key in todo;
      todo := todo - {key};
      var value := v.fields[key];
      if IsMarker(value) {
        result := result[key := value.fields[VALUE]];
      } else if value.Dict? {
        var inner := ResolveMarkers(value);
        result := result[key := inner];
      } else {
        result := result[key := value];
      }
    }
    r := Dict(result);
    assert r.fields == Resolve(v).fields;
  }

  /** No dict outside lists is a marker. */
  predicate NoMarkers(v: Value) {
    v.Dict? ==> !IsMarker(v) && forall k :: k in v.fields ==> NoMarkers(v.fields[k])
  }

  /** No marker anywhere below the top level. */
  predicate NoMarkersBelow(v: Value)
    requires v.Dict?
  {
    forall k :: k in v.fields ==> NoMarkers(v.fields[k])
  }

  /** Resolving changes a profile exactly when it holds a marker below its top level. */
  lemma {:induction false} ResolveFixesMarkerFree(v: Value)
    requires v.Dict?
    ensures Resolve(v) == v <==> NoMarkersBelow(v)
  {
    forall k | k in v.fields
      ensures Resolve(v).fields[k] == v.fields[k] <==> NoMarkers(v.fields[k])
    {
      if IsTree(v.fields[k]) { ResolveFixesMarkerFree(v.fields[k]); }
    }
    if NoMarkersBelow(v) {
      assert Resolve(v).fields == v.fields;
    }
  }

  /** Merging two profiles without markers gives one without markers exactly when neither
    * the two nor any common subtrees of them make one. */
  lemma {:induction false} MergeNoMarkers(x: Value, y: Value)
    requires x.Dict? && y.Dict? && NoMarkers(x) && NoMarkers(y)
    ensures NoMarkers(DeepMerge(x, y)) <==> !MakesMarker(x, y) && NoneMade(x, y)
    decreases y
  {
    var m := DeepMerge(x, y);
    MadeMarkers(x, y);
    forall k | k in m.fields
      ensures NoMarkers(m.fields[k]) <==>
        (BothTrees(x, y, k) ==> !MakesMarker(x.fields[k], y.fields[k]) && NoneMade(x.fields[k], y.fields[k]))
    {
      if k in y.fields { assert m.fields[k] == MergeAt(x, y, k); }
      if BothTrees(x, y, k) { MergeNoMarkers(x.fields[k], y.fields[k]); }
    }
  }

  lemma MergeNoMarkersBelow(x: Value, y: Value)
    requires x.Dict? && y.Dict? && NoMarkersBelow(x) && NoMarkersBelow(y) && NoneMade(x, y)
    ensures NoMarkersBelow(DeepMerge(x, y))
  {
    var m := DeepMerge(x, y);
    forall k | k in m.fields ensures NoMarkers(m.fields[k]) {
      if k in y.fields { assert m.fields[k] == MergeAt(x, y, k); }
      if BothTrees(x, y, k) { MergeNoMarkers(x.fields[k], y.fields[k]); }
    }
  }

  lemma {:induction false} KindsDoNotBlock(x: Value, y: Value, path: seq<string>)
    requires x.Dict? && y.Dict? && SameKinds(x, y) && BlockedAt(y, path)
    ensures At(x, path) == Absent
    decreases path
  {
    var k, rest := path[0], path[1..];
    if BothTrees(x, y, k) {
      TreesAgree(x.fields[k], rest);
      TreesAgree(y.fields[k], rest);
      KindsDoNotBlock(x.fields[k], y.fields[k], rest);
    }
  }

  lemma {:induction false} NothingOnWay(x: Value, y: Value, path: seq<string>)
    requires x.Dict? && y.Dict? && NoneMade(x, y)
    ensures !MadeOnWay(x, y, path)
    decreases path
  {
    if path != [] && BothTrees(x, y, path[0]) { NothingOnWay(x.fields[path[0]], y.fields[path[0]], path[1..]); }
  }

  /** Where no marker is made and the layers agree on kinds, the merge has at every path
    * the overlay's entry, or else the base's. */
  lemma PlainMergeByPath(x: Value, y: Value, path: seq<string>)
    requires x.Dict? && y.Dict? && NoneMade(x, y) && SameKinds(x, y)
    ensures At(DeepMerge(x, y), path) == if At(y, path) != Absent then At(y, path) else At(x, path)
  {
    NothingOnWay(x, y, path);
    MergeByPath(x, y, path);
    if BlockedAt(y, path) { KindsDoNotBlock(x, y, path); }
  }

  /** Such layers: the reserved key stands alone in one, the payload key in the other. */
  lemma StrayKeysMakeMarker(k: string, v: Value)
    requires k != REPLACE && !v.Dict?
    ensures
      var x, y := Dict(map[k := Dict(map[REPLACE := Bool(true)])]), Dict(map[k := Dict(map[VALUE := v])]);
      NoMarkers(x) && NoMarkers(y) && !NoMarkers(DeepMerge(x, y))
  {
    var x, y := Dict(map[k := Dict(map[REPLACE := Bool(true)])]), Dict(map[k := Dict(map[VALUE := v])]);
    assert NoMarkers(x.fields[k]) && NoMarkers(y.fields[k]);
    assert DeepMerge(x, y).fields[k] == MergeAt(x, y, k) == DeepMerge(x.fields[k], y.fields[k]);
    assert IsMarker(DeepMerge(x.fields[k], y.fields[k]));
  }

  lemma {:induction false} CleanHasNoMarkers(v: Value)
    requires Clean(v)
    ensures NoMarkers(v) && WellMarked(v) && OnlyMarkers(v)
  {
    if v.Dict? {
      forall k | k in v.fields ensures NoMarkers(v.fields[k]) && WellMarked(v.fields[k]) && OnlyMarkers(v.fields[k]) {
        CleanHasNoMarkers(v.fields[k]);
      }
    }
  }

  /** Resolving lifts payloads; the reserved key still stands only in markers. */
  lemma {:induction false} ResolveOnlyMarkers(v: Value)
    requires IsTree(v) && OnlyMarkers(v)
    ensures IsTree(Resolve(v)) && OnlyMarkers(Resolve(v))
  {
    forall k | k in v.fields ensures OnlyMarkers(Resolve(v).fields[k]) {
      if IsTree(v.fields[k]) { ResolveOnlyMarkers(v.fields[k]); }
    }
  }

  /** A resolved profile is clean, whatever well-formed markers went in. */
  lemma {:induction false} ResolveCleans(v: Value)
    requires IsTree(v) && WellMarked(v)
    ensures Clean(Resolve(v))
  {
    forall k | k in v.fields ensures Clean(Resolve(v).fields[k]) {
      if IsTree(v.fields[k]) { ResolveCleans(v.fields[k]); }
    }
  }

  /** The value at a key path of a resolved profile. */
  function ValueAt(v: Value, path: seq<string>): Option<Value>
    decreases path
  {
    if path == [] then Some(v)
    else if v.Dict? && path[0] in v.fields then ValueAt(v.fields[path[0]], path[1..])
    else None
  }

  lemma {:induction false} ResolveByPath(v: Value, path: seq<string>)
    requires v.Dict? && path != [] && At(v, path).Leaf?
    ensures
      var leaf := At(v, path).v;
      ValueAt(Resolve(v), path) == Some(if IsMarker(leaf) then leaf.fields[VALUE] else leaf)
  {
    if |path| == 1 {
      assert path[1..] == [];
    } else {
      TreesAgree(v.fields[path[0]], path[1..]);
      ResolveByPath(v.fields[path[0]], path[1..]);
    }
  }

  /** What merging makes of the way to a leaf of the overlay: it stays open, or the first
    * marker made above the leaf cuts it, with that marker's payload and the rest of the path. */
  datatype Way = Open | Cut(payload: Value, rest: seq<string>)

  function WayTo(base: Value, overlay: Value, path: seq<string>): Way
    requires base.Dict? && overlay.Dict? && path != []
    decreases path
  {
    if |path| == 1 || !BothTrees(base, overlay, path[0]) then Open
    else
      var x, y := base.fields[path[0]], overlay.fields[path[0]];
      MadeMarkers(x, y);
      if MakesMarker(x, y) then Cut(DeepMerge(x, y).fields[VALUE], path[1..]) else WayTo(x, y, path[1..])
  }

  /** A marker in the overlay forces its payload whatever the base holds, unless merging
    * makes a marker above it; then what is read there comes out of that marker's payload. */
  lemma {:induction false} MarkerForcesPayload(base: Value, overlay: Value, path: seq<string>)
    requires base.Dict? && overlay.Dict?
    requires path != [] && At(overlay, path).Leaf? && IsMarker(At(overlay, path).v)
    ensures ValueAt(Resolve(DeepMerge(base, overlay)), path) ==
      match WayTo(base, overlay, path)
      case Open => Some(At(overlay, path).v.fields[VALUE])
      case Cut(payload, rest) => ValueAt(payload, rest)
    decreases path
  {
    var k, m := path[0], DeepMerge(base, overlay);
    assert m.fields[k] == MergeAt(base, overlay, k);
    if |path| == 1 {
      assert path[1..] == [];
    } else if BothTrees(base, overlay, k) {
      TreesAgree(overlay.fields[k], path[1..]);
      MadeMarkers(base.fields[k], overlay.fields[k]);
      if !MakesMarker(base.fields[k], overlay.fields[k]) { MarkerForcesPayload(base.fields[k], overlay.fields[k], path[1..]); }
    } else {
      TreesAgree(overlay.fields[k], path[1..]);
      ResolveByPath(overlay.fields[k], path[1..]);
    }
  }

  /** The way stays open when the reserved key occurs only in markers. */
  lemma {:induction false} OnlyMarkersLeaveOpen(base: Value, overlay: Value, path: seq<string>)
    requires IsTree(base) && IsTree(overlay) && OnlyMarkers(base) && OnlyMarkers(overlay) && path != []
    ensures WayTo(base, overlay, path) == Open
    decreases path
  {
    if |path| > 1 && BothTrees(base, overlay, path[0]) {
      OnlyMarkersMakeNone(base.fields[path[0]], overlay.fields[path[0]]);
      OnlyMarkersLeaveOpen(base.fields[path[0]], overlay.fields[path[0]], path[1..]);
    }
  }

  /** It is cut by a stray reserved key below and a payload key beside the marker. */
  lemma StrayKeyCutsMarker(k: string, j: string, payload: Value)
    requires !payload.Dict? && k != REPLACE && j !in {REPLACE, VALUE}
    ensures
      var base := Dict(map[k := Dict(map[REPLACE := Bool(true)])]);
      var overlay := Dict(map[k := Dict(map[VALUE := Null, j := Dict(map[REPLACE := Bool(true), VALUE := payload])])]);
      && At(overlay, [k, j]) == Leaf(overlay.fields[k].fields[j])
      && WayTo(base, overlay, [k, j]) == Cut(Null, [j])
      && ValueAt(Resolve(DeepMerge(base, overlay)), [k, j]) == None
  {
    var base := Dict(map[k := Dict(map[REPLACE := Bool(true)])]);
    var overlay := Dict(map[k := Dict(map[VALUE := Null, j := Dict(map[REPLACE := Bool(true), VALUE := payload])])]);
    assert [k, j][1..] == [j] && [j][1..] == [];
    assert NodeAt(overlay.fields[k], [j]) == Leaf(overlay.fields[k].fields[j]);
    assert BothTrees(base, overlay, k) && MakesMarker(base.fields[k], overlay.fields[k]);
    assert VALUE !in base.fields[k].fields;
    assert DeepMerge(base.fields[k], overlay.fields[k]).fields[VALUE] == MergeAt(base.fields[k], overlay.fields[k], VALUE);
    MarkerForcesPayload(base, overlay, [k, j]);
  }
}
