/**
 Properties of the weight-clearing pass: which entries it touches and how,
 what it leaves alone, how its two modes relate, how the threshold and the
 offset move the cut, and that running it a second time changes nothing.
 */
module ClearWeightProperties {
  import opened Vectors
  import opened ClearWeight

  // ---------------------------------------------------------------------------
  // Armature lookup
  // ---------------------------------------------------------------------------

  /** The armatures linked by a concatenated modifier stack are those of each part, in order. */
  lemma {:induction false} LinkedArmaturesAppend(a: seq<Modifier>, b: seq<Modifier>)
    ensures LinkedArmatures(a + b) == LinkedArmatures(a) + LinkedArmatures(b)
    decreases |b|
  {
    if b == [] {
      assert a + b == a;
    } else {
      var b' := b[..|b| - 1];
      assert (a + b)[..|a + b| - 1] == a + b';
      assert b[..|b| - 1] == b';
      LinkedArmaturesAppend(a, b');
    }
  }

  /**
   A modifier that is not an armature modifier, or an armature modifier with
   no object, wherever it sits in the stack, does not count towards the
   linked armatures.
   */
  lemma IgnoredModifier(a: seq<Modifier>, m: Modifier, b: seq<Modifier>)
    requires m.kind != "ARMATURE" || m.target.None?
    ensures LinkedArmatures(a + [m] + b) == LinkedArmatures(a + b)
  {
    assert [m][..0] == [];
    assert LinkedArmatures([m]) == [];
    LinkedArmaturesAppend(a + [m], b);
    LinkedArmaturesAppend(a, [m]);
    assert LinkedArmatures(a + [m]) == LinkedArmatures(a);
    LinkedArmaturesAppend(a, b);
  }

  /**
   Two modifiers that each link an armature, anywhere in the stack, make two
   links, so the pass cancels, even when both point at the same armature.
   */
  lemma TwoLinksCancel(obj: MeshObject, i: int, j: int)
    requires 0 <= i < j < |obj.modifiers|
    requires Links(obj.modifiers[i]) && Links(obj.modifiers[j])
    ensures !Proceeds(obj)
  {
    LinkedArmaturesCount(obj.modifiers);
    var positions := LinkPositions(obj.modifiers);
    assert positions == {i, j} + (positions - {i, j});
    assert |{i, j}| == 2;
  }

  /** With exactly one linking modifier in the stack, the pass is not cancelled for want of an armature. */
  lemma OneLinkSuffices(obj: MeshObject, i: int)
    requires obj.deform != null
    requires 0 <= i < |obj.modifiers| && Links(obj.modifiers[i])
    requires forall j :: 0 <= j < |obj.modifiers| && j != i ==> !Links(obj.modifiers[j])
    ensures Proceeds(obj)
    ensures LinkedArmatures(obj.modifiers) == [obj.modifiers[i].target.value]
  {
    LinkedArmaturesCount(obj.modifiers);
    assert LinkPositions(obj.modifiers) == {i};
    var arms := LinkedArmatures(obj.modifiers);
    assert obj.modifiers[i].target.value in arms;
  }

  // ---------------------------------------------------------------------------
  // Which entries are cleared
  // ---------------------------------------------------------------------------

  /** An entry whose vertex group names no bone in the chosen bone source is kept as it was. */
  lemma MissingBoneKept(w: map<int, real>, names: seq<string>, pos: Vec3, arm: Armature, p: Params, k: int)
    requires KeysResolvable(w, names)
    requires k in w && FindBone(arm, p.boneType, names[k]).None?
    ensures var r := ClearedWeights(w, names, pos, arm, p); k in r && r[k] == w[k]
  {
  }

  /** With the selected-bones filter on, an entry whose bone is not selected is kept as it was. */
  lemma UnselectedBoneKept(w: map<int, real>, names: seq<string>, pos: Vec3, arm: Armature, p: Params, k: int)
    requires KeysResolvable(w, names)
    requires k in w && p.selectedBoneOnly
    requires FindBone(arm, p.boneType, names[k]).Some? && !FindBone(arm, p.boneType, names[k]).value.select
    ensures var r := ClearedWeights(w, names, pos, arm, p); k in r && r[k] == w[k]
  {
  }

  /**
   With pose bones and "selected bones only", the selection that counts is
   that of the bone the pose bone poses: when it is unselected the entry is
   kept, whatever the armature's rest bone of that name says.
   */
  lemma PoseSelectionKept(w: map<int, real>, names: seq<string>, pos: Vec3, arm: Armature, p: Params, k: int)
    requires KeysResolvable(w, names)
    requires p.boneType == PoseBone && p.selectedBoneOnly
    requires k in w && names[k] in arm.poseBones && !arm.poseBones[names[k]].bone.select
    ensures var r := ClearedWeights(w, names, pos, arm, p); k in r && r[k] == w[k]
  {
  }

  /** With rest bones and "selected bones only", an entry whose rest bone is unselected is kept, whatever its pose bone says. */
  lemma RestSelectionKept(w: map<int, real>, names: seq<string>, pos: Vec3, arm: Armature, p: Params, k: int)
    requires KeysResolvable(w, names)
    requires p.boneType == RestBone && p.selectedBoneOnly
    requires k in w && names[k] in arm.bones && !arm.bones[names[k]].select
    ensures var r := ClearedWeights(w, names, pos, arm, p); k in r && r[k] == w[k]
  {
  }

  /**
   With pose bones the pass reads only the pose bones: the head, tail and
   selection flag of the armature's rest bones (including their selection)
   make no difference to the result.
   */
  lemma PoseIgnoresRestBones(w: map<int, real>, names: seq<string>, pos: Vec3, arm: Armature, p: Params, rest: map<string, Bone>)
    requires KeysResolvable(w, names)
    requires p.boneType == PoseBone
    ensures ClearedWeights(w, names, pos, arm.(bones := rest), p) == ClearedWeights(w, names, pos, arm, p)
  {
    var a := ClearedWeights(w, names, pos, arm.(bones := rest), p);
    var b := ClearedWeights(w, names, pos, arm, p);
    forall k | k in w
      ensures Clears(arm.(bones := rest), names[k], pos, p) == Clears(arm, names[k], pos, p)
    {
    }
    assert a.Keys == b.Keys;
  }

  /** With rest bones the pass reads only the rest bones: the pose makes no difference to the result. */
  lemma RestIgnoresPoseBones(w: map<int, real>, names: seq<string>, pos: Vec3, arm: Armature, p: Params, posed: map<string, PoseBoneData>)
    requires KeysResolvable(w, names)
    requires p.boneType == RestBone
    ensures ClearedWeights(w, names, pos, arm.(poseBones := posed), p) == ClearedWeights(w, names, pos, arm, p)
  {
    var a := ClearedWeights(w, names, pos, arm.(poseBones := posed), p);
    var b := ClearedWeights(w, names, pos, arm, p);
    forall k | k in w
      ensures Clears(arm.(poseBones := posed), names[k], pos, p) == Clears(arm, names[k], pos, p)
    {
    }
    assert a.Keys == b.Keys;
  }

  /** A dot product exactly at the threshold leaves the entry alone: the comparison is strict. */
  lemma AtThresholdKept(b: BoneSample, pos: Vec3, p: Params)
    requires DotValue(b.head, b.tail, pos, p.offset) == p.dotThreshold
    ensures !Behind(b, pos, p)
  {
  }

  /** A larger offset never clears more: whatever a larger offset clears, a smaller one clears too. */
  lemma OffsetMonotone(arm: Armature, name: string, pos: Vec3, p: Params, smaller: real)
    requires smaller <= p.offset
    requires Clears(arm, name, pos, p)
    ensures Clears(arm, name, pos, p.(offset := smaller))
  {
    var b := FindBone(arm, p.boneType, name).value;
    MulRightMonotone(smaller, p.offset, LengthSquared(Sub(b.tail, b.head)));
  }

  lemma MulRightMonotone(a: real, b: real, c: real)
    requires a <= b && 0.0 <= c
    ensures a * c <= b * c
  {
    assert (b - a) * c >= 0.0;
  }

  /** A larger threshold never clears less. */
  lemma ThresholdMonotone(arm: Armature, name: string, pos: Vec3, p: Params, larger: real)
    requires p.dotThreshold <= larger
    requires Clears(arm, name, pos, p)
    ensures Clears(arm, name, pos, p.(dotThreshold := larger))
  {
  }

  /**
   A zero-length bone gives a dot product of 0 whatever the vertex and the
   offset, so its entries are cleared exactly when the threshold is positive.
   */
  lemma ZeroLengthBone(b: BoneSample, pos: Vec3, p: Params)
    requires b.head == b.tail
    ensures DotValue(b.head, b.tail, pos, p.offset) == 0.0
    ensures Behind(b, pos, p) <==> 0.0 < p.dotThreshold
  {
    DotValueFromHead(b.head, b.tail, pos, p.offset);
  }

  // ---------------------------------------------------------------------------
  // Worked cases of the dot-product test
  // ---------------------------------------------------------------------------

  /** A bone from the origin up the z axis, selected. */
  function UpBone(): BoneSample
  {
    BoneSample(Vec3(0.0, 0.0, 0.0), Vec3(0.0, 0.0, 1.0), true)
  }

  /** With no offset, the dot product against the upward unit bone is the vertex's height. */
  lemma UpBoneHeight(pos: Vec3)
    ensures DotValue(Vec3(0.0, 0.0, 0.0), Vec3(0.0, 0.0, 1.0), pos, 0.0) == pos.z
  {
    assert Dot(Vec3(0.0, 0.0, 1.0), pos) == pos.z;
  }

  /** A vertex below the head of an upward bone is behind it at threshold 0. */
  lemma BelowHeadIsBehind(p: Params)
    requires p.offset == 0.0 && p.dotThreshold == 0.0
    ensures Behind(UpBone(), Vec3(0.0, 0.0, -1.0), p)
  {
    UpBoneHeight(Vec3(0.0, 0.0, -1.0));
  }

  /** A vertex beyond the tail of an upward bone is not behind it at threshold 0. */
  lemma BeyondTailIsNotBehind(p: Params)
    requires p.offset == 0.0 && p.dotThreshold == 0.0
    ensures !Behind(UpBone(), Vec3(0.0, 0.0, 2.0), p)
  {
    UpBoneHeight(Vec3(0.0, 0.0, 2.0));
  }

  /**
   The test is on the raw dot product, not a cosine: at the largest threshold
   1, a vertex half-way along an upward unit bone, straight in front of its
   head, is still behind it.
   */
  lemma RawDotNotCosine(p: Params)
    requires p.offset == 0.0 && p.dotThreshold == 1.0
    ensures Behind(UpBone(), Vec3(0.0, 0.0, 0.5), p)
  {
    UpBoneHeight(Vec3(0.0, 0.0, 0.5));
  }

  // ---------------------------------------------------------------------------
  // Dispatch
  // ---------------------------------------------------------------------------

  /**
   As written, the operator does nothing in mesh edit mode, although it is
   offered in that mode's Weights menu: the context reports "EDIT_MESH",
   which the dispatch does not recognise.
   */
  lemma EditMeshModeSkipped()
    ensures "EDIT_MESH" in MenuModes
    ensures DispatchAsWritten("EDIT_MESH") == NoObject
  {
  }

  /** As intended, every mode whose menu offers the operator runs it on the active object. */
  lemma MenuModesReachActive(mode: string)
    requires mode in MenuModes
    ensures DispatchIntended(mode) == ActiveObject
  {
  }

  /** The two dispatches differ only in mesh edit mode and in the never-reported name "EDIT". */
  lemma DispatchesAgreeElsewhere(mode: string)
    requires mode != "EDIT_MESH" && mode != "EDIT"
    ensures DispatchAsWritten(mode) == DispatchIntended(mode)
  {
  }

  // ---------------------------------------------------------------------------
  // The two clearing modes
  // ---------------------------------------------------------------------------

  /**
   Deleting and zeroing clear the same entries: the map the delete mode leaves
   is the map the zero mode leaves, without the entries it set to 0 because
   they were cleared.
   */
  lemma RemoveIsZeroWithoutCleared(w: map<int, real>, names: seq<string>, pos: Vec3, arm: Armature, p: Params)
    requires KeysResolvable(w, names)
    requires p.remove
    ensures
      var zeroed := ClearedWeights(w, names, pos, arm, p.(remove := false));
      ClearedWeights(w, names, pos, arm, p)
        == map k | k in zeroed && !Clears(arm, names[k], pos, p) :: zeroed[k]
  {
    var zeroed := ClearedWeights(w, names, pos, arm, p.(remove := false));
    var removed := ClearedWeights(w, names, pos, arm, p);
    var expected := map k | k in zeroed && !Clears(arm, names[k], pos, p) :: zeroed[k];
    forall k | k in w
      ensures Clears(arm, names[k], pos, p.(remove := false)) == Clears(arm, names[k], pos, p)
    {
    }
    assert removed.Keys == expected.Keys;
  }

  // ---------------------------------------------------------------------------
  // Running the pass twice
  // ---------------------------------------------------------------------------

  /** Clearing one vertex's weights a second time changes nothing, in both modes. */
  lemma {:induction false} ClearedWeightsIdempotent(w: map<int, real>, names: seq<string>, pos: Vec3, arm: Armature, p: Params)
    requires KeysResolvable(w, names)
    ensures KeysResolvable(ClearedWeights(w, names, pos, arm, p), names)
    ensures ClearedWeights(ClearedWeights(w, names, pos, arm, p), names, pos, arm, p)
      == ClearedWeights(w, names, pos, arm, p)
  {
    var once := ClearedWeights(w, names, pos, arm, p);
    var twice := ClearedWeights(once, names, pos, arm, p);
    assert twice.Keys == once.Keys;
  }

  /**
   Running the pass twice on the same vertices, with the same armature and
   parameters, leaves the same deform layer as running it once: the test reads
   only positions and parameters, never the weights.
   */
  lemma {:induction false} PassIdempotent(verts: seq<Vertex>, layer: seq<map<int, real>>, names: seq<string>, arm: Armature, p: Params)
    requires |layer| == |verts|
    requires LayerResolvable(verts, layer, names, p)
    ensures LayerResolvable(verts, PassResult(verts, layer, names, arm, p), names, p)
    ensures PassResult(verts, PassResult(verts, layer, names, arm, p), names, arm, p)
      == PassResult(verts, layer, names, arm, p)
  {
    var once := PassResult(verts, layer, names, arm, p);
    forall i | 0 <= i < |verts| && Visited(verts[i], p)
      ensures KeysResolvable(once[i], names)
    {
    }
    var twice := PassResult(verts, once, names, arm, p);
    forall i | 0 <= i < |verts|
      ensures twice[i] == once[i]
    {
      if Visited(verts[i], p) {
        ClearedWeightsIdempotent(layer[i], names, verts[i].co, arm, p);
      }
    }
  }

  /**
   Two clearings of one vertex's weights, with different vertex groups,
   positions and armatures, give the same map in either order: each deletes
   or zeroes only the entries its own test picks, and the test never reads a
   weight.
   */
  lemma ClearedWeightsCommute(w: map<int, real>, na: seq<string>, xa: Vec3, aa: Armature,
                              nb: seq<string>, xb: Vec3, ab: Armature, p: Params)
    requires KeysResolvable(w, na) && KeysResolvable(w, nb)
    ensures KeysResolvable(ClearedWeights(w, na, xa, aa, p), nb)
    ensures KeysResolvable(ClearedWeights(w, nb, xb, ab, p), na)
    ensures ClearedWeights(ClearedWeights(w, na, xa, aa, p), nb, xb, ab, p)
      == ClearedWeights(ClearedWeights(w, nb, xb, ab, p), na, xa, aa, p)
  {
    var aThenB := ClearedWeights(ClearedWeights(w, na, xa, aa, p), nb, xb, ab, p);
    var bThenA := ClearedWeights(ClearedWeights(w, nb, xb, ab, p), na, xa, aa, p);
    assert aThenB.Keys == bThenA.Keys;
  }

  /**
   Two passes over one shared deform layer, by two objects with their own
   vertices, vertex groups and armatures, leave the same layer in either
   order: the outcome of the operator over several selected objects sharing
   a mesh does not depend on the order of the selection.
   */
  lemma {:induction false} PassesCommute(va: seq<Vertex>, vb: seq<Vertex>, layer: seq<map<int, real>>,
                                         na: seq<string>, aa: Armature, nb: seq<string>, ab: Armature, p: Params)
    requires |va| == |layer| == |vb|
    requires LayerResolvable(va, layer, na, p) && LayerResolvable(vb, layer, nb, p)
    ensures LayerResolvable(vb, PassResult(va, layer, na, aa, p), nb, p)
    ensures LayerResolvable(va, PassResult(vb, layer, nb, ab, p), na, p)
    ensures PassResult(vb, PassResult(va, layer, na, aa, p), nb, ab, p)
      == PassResult(va, PassResult(vb, layer, nb, ab, p), na, aa, p)
  {
    var afterA := PassResult(va, layer, na, aa, p);
    var afterB := PassResult(vb, layer, nb, ab, p);
    var aThenB := PassResult(vb, afterA, nb, ab, p);
    var bThenA := PassResult(va, afterB, na, aa, p);
    forall i | 0 <= i < |layer|
      ensures aThenB[i] == bThenA[i]
    {
      if Visited(va[i], p) && Visited(vb[i], p) {
        ClearedWeightsCommute(layer[i], na, va[i].co, aa, nb, vb[i].co, ab, p);
      }
    }
  }

  /** When no visited entry passes the test, the pass leaves the deform layer as it was. */
  lemma {:induction false} PassNoOp(verts: seq<Vertex>, layer: seq<map<int, real>>, names: seq<string>, arm: Armature, p: Params)
    requires |layer| == |verts|
    requires LayerResolvable(verts, layer, names, p)
    requires forall i, k :: 0 <= i < |verts| && Visited(verts[i], p) && k in layer[i] ==>
      !Clears(arm, names[k], verts[i].co, p)
    ensures PassResult(verts, layer, names, arm, p) == layer
  {
    var r := PassResult(verts, layer, names, arm, p);
    forall i | 0 <= i < |verts|
      ensures r[i] == layer[i]
    {
      if Visited(verts[i], p) {
        assert r[i].Keys == layer[i].Keys;
      }
    }
  }
}
