/**
 The "Clear Weight by Dot Product" operator: for every vertex of a mesh object
 (or only the selected ones), and for every deform-weight entry of that vertex,
 find the bone named like the entry's vertex group in the object's single
 armature, and clear the entry when the vertex lies "behind" the bone, that is
 when the raw dot product of the bone vector with the vertex position
 (measured from a point shifted along the bone by `offset`) is strictly below
 the threshold. Clearing deletes the entry or sets its weight to 0.

 Positions are world-space inputs: the object's and the armature's world
 matrices are applied by the host before the pass sees them.
 */
module ClearWeight {
  import opened Vectors

  datatype Option<T> = None | Some(value: T)

  // ---------------------------------------------------------------------------
  // Data model
  // ---------------------------------------------------------------------------

  /** The operator's `bonetype` property: rest bones ("BONE") or pose bones ("POSE"). */
  datatype BoneType = RestBone | PoseBone

  /** The operator's properties. */
  datatype Params = Params(
    boneType: BoneType,
    dotThreshold: real,
    selectedVertexOnly: bool,
    selectedBoneOnly: bool,
    remove: bool,
    offset: real)

  /** A rest bone of the armature data: rest head and tail, and its selection flag. */
  datatype Bone = Bone(headLocal: Vec3, tailLocal: Vec3, select: bool)

  /** A pose bone: posed head and tail, and the armature bone it poses (which holds the selection flag). */
  datatype PoseBoneData = PoseBoneData(head: Vec3, tail: Vec3, bone: Bone)

  /** An armature object: its rest bones and its pose bones, both looked up by name. */
  datatype Armature = Armature(bones: map<string, Bone>, poseBones: map<string, PoseBoneData>)

  /** An object modifier: its type name and the object it points at, if any. */
  datatype Modifier = Modifier(kind: string, target: Option<Armature>)

  /** A mesh vertex: its world-space position and its selection flag. */
  datatype Vertex = Vertex(co: Vec3, select: bool)

  /**
   A mesh object: its modifier stack, its vertex-group names (indexed by group
   index), its vertices, and the active deform layer, which holds one map from
   group index to weight per vertex, or is null when the mesh has none.
   */
  datatype MeshObject = MeshObject(
    modifiers: seq<Modifier>,
    vertexGroups: seq<string>,
    verts: seq<Vertex>,
    deform: array?<map<int, real>>)

  /** What one object's pass reports: `Cancelled`, or normal completion. */
  datatype ObjectResult = Cancelled | Completed

  /** What the operator as a whole reports. */
  datatype OperatorResult = Finished

  /** Which objects the operator hands to the pass. */
  datatype Dispatch = EachSelected | ActiveObject | NoObject

  // ---------------------------------------------------------------------------
  // Specification
  // ---------------------------------------------------------------------------

  /** Whether a modifier links an armature: it is an armature modifier and has an object. */
  predicate Links(m: Modifier)
  {
    m.kind == "ARMATURE" && m.target.Some?
  }

  /** The positions in the modifier stack of the modifiers that link an armature. */
  ghost function LinkPositions(mods: seq<Modifier>): set<int>
  {
    set i | 0 <= i < |mods| && Links(mods[i])
  }

  /**
   The armatures linked to an object: the targets of its armature modifiers
   that have one, in stack order, one per such modifier.
   */
  function LinkedArmatures(mods: seq<Modifier>): (arms: seq<Armature>)
    ensures forall a :: a in arms <==>
      exists i :: 0 <= i < |mods| && mods[i].kind == "ARMATURE" && mods[i].target == Some(a)
  {
    if mods == [] then []
    else
      var n := |mods|;
      var last := mods[n - 1];
      LinkedArmatures(mods[..n - 1]) + (if Links(last) then [last.target.value] else [])
  }

  /** There is one linked armature per modifier that links one: duplicates are not merged. */
  lemma {:induction false} LinkedArmaturesCount(mods: seq<Modifier>)
    ensures |LinkedArmatures(mods)| == |LinkPositions(mods)|
    decreases |mods|
  {
    if mods == [] {
      assert LinkPositions(mods) == {};
    } else {
      LinkedArmaturesCount(mods[..|mods| - 1]);
      LinkPositionsSnoc(mods);
    }
  }

  /** Dropping the last modifier drops its position, if it links an armature, and no other. */
  lemma LinkPositionsSnoc(mods: seq<Modifier>)
    requires mods != []
    ensures |LinkPositions(mods)| ==
      |LinkPositions(mods[..|mods| - 1])| + (if Links(mods[|mods| - 1]) then 1 else 0)
  {
    var n := |mods|;
    var front := LinkPositions(mods[..n - 1]);
    assert n - 1 !in front;
    if Links(mods[n - 1]) {
      assert LinkPositions(mods) == front + {n - 1};
    } else {
      assert LinkPositions(mods) == front;
    }
  }

  /** The head, tail and selection flag the pass reads for a bone. */
  datatype BoneSample = BoneSample(head: Vec3, tail: Vec3, select: bool)

  /**
   The bone named `name` in the source `bonetype` chooses: a pose bone (its
   selection taken from the bone it poses) or a rest bone; None when there is
   no bone of that name.
   */
  function FindBone(arm: Armature, boneType: BoneType, name: string): (r: Option<BoneSample>)
    ensures r.Some? <==> if boneType == PoseBone then name in arm.poseBones else name in arm.bones
  {
    match boneType
    case PoseBone =>
      if name in arm.poseBones then
        var b := arm.poseBones[name];
        Some(BoneSample(b.head, b.tail, b.bone.select))
      else None
    case RestBone =>
      if name in arm.bones then
        var b := arm.bones[name];
        Some(BoneSample(b.headLocal, b.tailLocal, b.select))
      else None
  }

  /**
   The raw dot product of the bone vector `tail - head` with the vector from
   the origin `head - (tail - head) * offset` to the vertex. Neither vector is
   normalised.
   */
  function DotValue(head: Vec3, tail: Vec3, pos: Vec3, offset: real): (r: real)
  {
    var boneVector := Sub(tail, head);
    var origin := Sub(head, Scale(boneVector, offset));
    var vertexVector := Sub(pos, origin);
    Dot(boneVector, vertexVector)
  }

  /**
   Measured from the head instead: the offset moves the origin back along the
   raw bone vector, so each unit of offset adds the squared bone length to the
   dot product.
   */
  lemma DotValueFromHead(head: Vec3, tail: Vec3, pos: Vec3, offset: real)
    ensures DotValue(head, tail, pos, offset) ==
      Dot(Sub(tail, head), Sub(pos, head)) + offset * LengthSquared(Sub(tail, head))
  {
    var boneVector := Sub(tail, head);
    var origin := Sub(head, Scale(boneVector, offset));
    DotSub(boneVector, pos, origin);
    DotSub(boneVector, head, Scale(boneVector, offset));
    DotScale(boneVector, boneVector, offset);
    DotSub(boneVector, pos, head);
  }

  /** The dot-product test: true when the entry must be cleared (strictly below the threshold). */
  predicate Behind(b: BoneSample, pos: Vec3, p: Params)
    ensures Behind(b, pos, p) <==>
      Dot(Sub(b.tail, b.head), Sub(pos, b.head)) < p.dotThreshold - p.offset * LengthSquared(Sub(b.tail, b.head))
  {
    DotValueFromHead(b.head, b.tail, pos, p.offset);
    DotValue(b.head, b.tail, pos, p.offset) < p.dotThreshold
  }

  /**
   Whether the weight entry of vertex group `name` of a vertex at `pos` is
   cleared: its bone exists, passes the selected-bones filter, and the vertex
   is behind it.
   */
  predicate Clears(arm: Armature, name: string, pos: Vec3, p: Params)
    ensures p.boneType == PoseBone ==>
      (Clears(arm, name, pos, p) <==>
        && name in arm.poseBones
        && (!p.selectedBoneOnly || arm.poseBones[name].bone.select)
        && DotValue(arm.poseBones[name].head, arm.poseBones[name].tail, pos, p.offset) < p.dotThreshold)
    ensures p.boneType == RestBone ==>
      (Clears(arm, name, pos, p) <==>
        && name in arm.bones
        && (!p.selectedBoneOnly || arm.bones[name].select)
        && DotValue(arm.bones[name].headLocal, arm.bones[name].tailLocal, pos, p.offset) < p.dotThreshold)
  {
    match FindBone(arm, p.boneType, name)
    case None => false
    case Some(b) => (!p.selectedBoneOnly || b.select) && Behind(b, pos, p)
  }

  /** Whether every weight key of `w` names an existing vertex group. */
  predicate KeysResolvable(w: map<int, real>, names: seq<string>)
  {
    forall k :: k in w ==> 0 <= k < |names|
  }

  /**
   The weight map of one vertex after the pass: every entry that `Clears`
   is deleted (when `remove`) or set to 0; every other entry is kept as it was.
   */
  function ClearedWeights(w: map<int, real>, names: seq<string>, pos: Vec3, arm: Armature, p: Params)
    : (r: map<int, real>)
    requires KeysResolvable(w, names)
    ensures r.Keys <= w.Keys
    ensures !p.remove ==> r.Keys == w.Keys
    ensures forall k :: k in w && !Clears(arm, names[k], pos, p) ==> k in r && r[k] == w[k]
    ensures forall k :: k in w && Clears(arm, names[k], pos, p) ==>
      if p.remove then k !in r else k in r && r[k] == 0.0
  {
    if p.remove then
      map k | k in w && !Clears(arm, names[k], pos, p) :: w[k]
    else
      map k | k in w :: if Clears(arm, names[k], pos, p) then 0.0 else w[k]
  }

  /** Whether the pass visits a vertex: all vertices, or only the selected ones. */
  predicate Visited(v: Vertex, p: Params)
    ensures !Visited(v, p) <==> p.selectedVertexOnly && !v.select
  {
    !p.selectedVertexOnly || v.select
  }

  /** The precondition the pass needs: every visited vertex's weight keys index the vertex groups. */
  predicate LayerResolvable(verts: seq<Vertex>, layer: seq<map<int, real>>, names: seq<string>, p: Params)
    requires |layer| == |verts|
  {
    forall i :: 0 <= i < |verts| && Visited(verts[i], p) ==> KeysResolvable(layer[i], names)
  }

  /**
   The whole deform layer after one pass with armature `arm`: visited vertices
   get `ClearedWeights`, the others keep their map.
   */
  function PassResult(verts: seq<Vertex>, layer: seq<map<int, real>>, names: seq<string>, arm: Armature, p: Params)
    : (r: seq<map<int, real>>)
    requires |layer| == |verts|
    requires LayerResolvable(verts, layer, names, p)
    ensures |r| == |layer|
    ensures forall i :: 0 <= i < |r| && !Visited(verts[i], p) ==> r[i] == layer[i]
    ensures forall i :: 0 <= i < |r| ==> r[i].Keys <= layer[i].Keys
    ensures forall i, k :: 0 <= i < |r| && k in r[i] ==> r[i][k] == layer[i][k] || r[i][k] == 0.0
  {
    seq(|layer|, i requires 0 <= i < |layer| =>
      if Visited(verts[i], p) then ClearedWeights(layer[i], names, verts[i].co, arm, p) else layer[i])
  }

  /** Whether the pass goes ahead on an object: it has an active deform layer and exactly one linked armature. */
  predicate Proceeds(obj: MeshObject)
  {
    obj.deform != null && |LinkedArmatures(obj.modifiers)| == 1
  }

  /** What the pass needs of an object it goes ahead on (read at the time of the call). */
  predicate Ready(obj: MeshObject, p: Params)
    reads obj.deform
  {
    obj.deform != null ==>
      obj.deform.Length == |obj.verts|
      && (|LinkedArmatures(obj.modifiers)| == 1 ==>
            LayerResolvable(obj.verts, obj.deform[..], obj.vertexGroups, p))
  }

  /** Whether no two objects of the list share a deform layer. */
  predicate DistinctLayers(objs: seq<MeshObject>)
  {
    forall i, j :: 0 <= i < j < |objs| && objs[i].deform != null ==> objs[i].deform != objs[j].deform
  }

  /**
   The context modes of the two menus the operator is added to: the mesh
   edit-mode Weights menu and the weight-paint Weights menu.
   */
  const MenuModes: set<string> := {"EDIT_MESH", "PAINT_WEIGHT"}

  /**
   The dispatch as written: the context mode is compared with "OBJECT",
   "EDIT" and "PAINT_WEIGHT". The context reports mesh edit mode as
   "EDIT_MESH", never as "EDIT", so that branch is never taken.
   */
  function DispatchAsWritten(mode: string): (d: Dispatch)
    ensures d == EachSelected <==> mode == "OBJECT"
    ensures d == ActiveObject <==> mode == "EDIT" || mode == "PAINT_WEIGHT"
  {
    if mode == "OBJECT" then EachSelected
    else if mode == "EDIT" then ActiveObject
    else if mode == "PAINT_WEIGHT" then ActiveObject
    else NoObject
  }

  /** The dispatch as evidently intended: mesh edit mode is recognised by the name the context reports. */
  function DispatchIntended(mode: string): (d: Dispatch)
    ensures d == EachSelected <==> mode == "OBJECT"
    ensures d == ActiveObject <==> mode in MenuModes
  {
    if mode == "OBJECT" then EachSelected
    else if mode == "EDIT_MESH" then ActiveObject
    else if mode == "PAINT_WEIGHT" then ActiveObject
    else NoObject
  }

  // ---------------------------------------------------------------------------
  // The operator
  // ---------------------------------------------------------------------------

  /** Gathers the targets of the armature modifiers that have one, walking the stack in order. */
  method CollectArmatures(mods: seq<Modifier>) returns (arms: seq<Armature>)
    ensures arms == LinkedArmatures(mods)
  {
    arms := [];
    var i := 0;
    while i < |mods|
      invariant 0 <= i <= |mods|
      invariant arms == LinkedArmatures(mods[..i])
    {
      var m := mods[i];
      assert mods[..i + 1][..i] == mods[..i];
      if m.kind == "ARMATURE" && m.target.Some? {
        arms := arms + [m.target.value];
      }
      i := i + 1;
    }
    assert mods[..|mods|] == mods;
  }

  /**
   The inner loop over one vertex's weight entries. The entries are walked from
   a snapshot of the keys taken before the loop, so deleting an entry does not
   disturb the walk; the order of the walk does not matter.
   */
  method ClearVertexWeights(w: map<int, real>, names: seq<string>, pos: Vec3, arm: Armature, p: Params)
    returns (r: map<int, real>)
    requires KeysResolvable(w, names)
    ensures r == ClearedWeights(w, names, pos, arm, p)
  {
    r := w;
    var items := w.Keys;
    while items != {}
      invariant items <= w.Keys
      invariant r.Keys <= w.Keys
      invariant forall k :: k in items ==> k in r && r[k] == w[k]
      invariant forall k :: k in w && k !in items && !Clears(arm, names[k], pos, p) ==> k in r && r[k] == w[k]
      invariant forall k :: k in w && k !in items && Clears(arm, names[k], pos, p) ==>
        if p.remove then k !in r else k in r && r[k] == 0.0
      decreases items
    {
      NonEmptyHasMember(items);
      var k :| k in items;
      var name := names[k];
      var bone := FindBone(arm, p.boneType, name);
      if bone.Some? {
        var b := bone.value;
        if !(p.selectedBoneOnly && !b.select) {
          var dot := DotValue(b.head, b.tail, pos, p.offset);
          if dot < p.dotThreshold {
            if p.remove {
              r := r - {k};
            } else {
              r := r[k := 0.0];
            }
          }
        }
      }
      items := items - {k};
    }
    ghost var spec := ClearedWeights(w, names, pos, arm, p);
    assert r.Keys == spec.Keys;
  }

  /** A non-empty set of keys has a member to pick. */
  lemma NonEmptyHasMember(s: set<int>)
    requires s != {}
    ensures exists k :: k in s
  {
    if forall k :: k !in s {
      assert false;
    }
  }

  /**
   The pass over one object. Cancels, changing nothing, when the mesh has no
   active deform layer or the object is not linked to exactly one armature;
   otherwise rewrites the deform layer in place to `PassResult`.
   */
  method ExecuteObject(obj: MeshObject, p: Params) returns (result: ObjectResult)
    requires Ready(obj, p)
    modifies obj.deform
    ensures result == Cancelled <==> !Proceeds(obj)
    ensures result == Cancelled ==> obj.deform == null || obj.deform[..] == old(obj.deform[..])
    ensures result == Completed ==>
      var arm := LinkedArmatures(obj.modifiers)[0];
      obj.deform[..] == PassResult(obj.verts, old(obj.deform[..]), obj.vertexGroups, arm, p)
    ensures obj.deform != null ==> ShrunkOrZeroed(obj.deform)
  {
    var layer := obj.deform;
    if layer == null {
      return Cancelled;
    }
    var armatures := CollectArmatures(obj.modifiers);
    if |armatures| != 1 {
      return Cancelled;
    }
    var arm := armatures[0];
    var names := obj.vertexGroups;
    ghost var before := layer[..];
    var i := 0;
    while i < layer.Length
      invariant 0 <= i <= layer.Length
      invariant forall j :: 0 <= j < i && Visited(obj.verts[j], p) ==>
        layer[j] == ClearedWeights(before[j], names, obj.verts[j].co, arm, p)
      invariant forall j :: 0 <= j < i && !Visited(obj.verts[j], p) ==> layer[j] == before[j]
      invariant forall j :: i <= j < layer.Length ==> layer[j] == before[j]
    {
      var v := obj.verts[i];
      if !p.selectedVertexOnly || v.select {
        var w := ClearVertexWeights(layer[i], names, v.co, arm, p);
        layer[i] := w;
      }
      i := i + 1;
    }
    assert layer[..] == PassResult(obj.verts, before, names, arm, p);
    return Completed;
  }

  /**
   Whether every deform map of a layer has kept only keys it had before, each
   with its old weight or 0: all that any number of passes can do to a layer.
   */
  twostate predicate ShrunkOrZeroed(layer: array<map<int, real>>)
    reads layer
  {
    forall j :: 0 <= j < layer.Length ==>
      && layer[j].Keys <= old(layer[j].Keys)
      && forall k :: k in layer[j] ==> layer[j][k] == old(layer[j])[k] || layer[j][k] == 0.0
  }

  /**
   What one pass did to an object's deform layer: it is `PassResult` of the
   layer as it was when the pass began, or unchanged when the pass cancelled.
   */
  twostate predicate PassApplied(t: MeshObject, p: Params)
    requires t.deform != null && old(Ready(t, p))
    reads t.deform
  {
    if Proceeds(t) then
      t.deform[..] == PassResult(t.verts, old(t.deform[..]), t.vertexGroups, LinkedArmatures(t.modifiers)[0], p)
    else
      t.deform[..] == old(t.deform[..])
  }

  /**
   The operator: runs the pass on each selected object in turn (several of
   them may share one deform layer), or on the active object, or on nothing,
   as the dispatch `d` decides; it always reports `Finished`, whatever the
   passes report. The operator as written is `Execute(DispatchAsWritten(mode), ...)`.
   */
  method Execute(d: Dispatch, selected: seq<MeshObject>, active: MeshObject, p: Params)
    returns (result: OperatorResult)
    requires d == EachSelected ==> forall t :: t in selected ==> Ready(t, p)
    requires d == ActiveObject ==> Ready(active, p)
    modifies set t | t in selected && t.deform != null :: t.deform
    modifies active.deform
    ensures result == Finished
    ensures d == EachSelected ==>
      forall t :: t in selected && t.deform != null ==> ShrunkOrZeroed(t.deform)
    ensures d == EachSelected && DistinctLayers(selected) ==>
      forall t :: t in selected && t.deform != null ==> PassApplied(t, p)
    ensures d == EachSelected && active.deform != null && (forall t :: t in selected ==> t.deform != active.deform) ==>
      active.deform[..] == old(active.deform[..])
    ensures d == ActiveObject && active.deform != null ==> PassApplied(active, p)
    ensures d == ActiveObject ==>
      forall t :: t in selected && t.deform != null && t.deform != active.deform ==> t.deform[..] == old(t.deform[..])
    ensures d == NoObject ==>
      && (forall t :: t in selected && t.deform != null ==> t.deform[..] == old(t.deform[..]))
      && (active.deform != null ==> active.deform[..] == old(active.deform[..]))
  {
    match d {
      case EachSelected =>
        var i := 0;
        while i < |selected|
          invariant 0 <= i <= |selected|
          invariant forall t :: t in selected ==> old(Ready(t, p))
          invariant forall t :: t in selected[i..] ==> Ready(t, p)
          invariant forall t :: t in selected && t.deform != null ==> ShrunkOrZeroed(t.deform)
          invariant DistinctLayers(selected) ==>
            forall j :: 0 <= j < i && selected[j].deform != null ==> PassApplied(selected[j], p)
          invariant DistinctLayers(selected) ==>
            forall j :: i <= j < |selected| && selected[j].deform != null ==>
              selected[j].deform[..] == old(selected[j].deform[..])
          invariant active.deform != null && (forall t :: t in selected ==> t.deform != active.deform) ==>
            active.deform[..] == old(active.deform[..])
        {
          var obj := selected[i];
          ghost var layersBefore := map t | t in selected && t.deform != null :: t.deform[..];
          var _ := ExecuteObject(obj, p);
          forall t | t in selected[i + 1..]
            ensures Ready(t, p)
          {
            assert t in selected[i..];
            if t.deform != null && t.deform == obj.deform {
              ReadyWhenKeysShrink(t, layersBefore[t], p);
            }
          }
          i := i + 1;
        }
      case ActiveObject =>
        var _ := ExecuteObject(active, p);
      case NoObject =>
    }
    return Finished;
  }

  /** `Ready` survives any change to the deform layer that only removes keys. */
  lemma ReadyWhenKeysShrink(t: MeshObject, before: seq<map<int, real>>, p: Params)
    requires t.deform != null
    requires |before| == t.deform.Length == |t.verts|
    requires |LinkedArmatures(t.modifiers)| == 1 ==> LayerResolvable(t.verts, before, t.vertexGroups, p)
    requires forall j :: 0 <= j < t.deform.Length ==> t.deform[j].Keys <= before[j].Keys
    ensures Ready(t, p)
  {
  }
}
