# Clear Weight by Dot Product — a verified model

This project models the Blender add-on operator "Clear Weight by Dot Product".
The operator clears bone-weight influences from the vertices of a mesh object.
A vertex loses an influence when it lies "behind" the bone of the same name.

For one mesh object the pass works like this:

- It gives up (`CANCELLED`) when the mesh has no active deform layer.
- It also gives up unless exactly one armature modifier with an object is linked.
  Modifiers of other types, and armature modifiers without an object, are not counted.
- It visits every vertex, or only the selected ones.
- For each weight entry of a visited vertex, it looks up the bone named like the entry's vertex group.
  The bone comes from the pose bones (`POSE`) or from the rest bones (`BONE`).
- Entries with no such bone are skipped.
  With "selected bones only", entries whose bone is not selected are skipped too.
- For the remaining entries it computes the raw dot product
  `dot(tail - head, pos - (head - (tail - head) * offset))`.
- When that value is strictly below the threshold, it deletes the entry (`remove`) or sets its weight to 0.

The operator itself picks its targets from the context's mode string.
In `OBJECT` mode it runs the pass on every selected object.
In `EDIT` or `PAINT_WEIGHT` mode it runs the pass on the active object.
In any other mode it does nothing.
It always reports `FINISHED`.
The context reports mesh edit mode as `EDIT_MESH`, never as `EDIT`, so as written the operator does nothing in mesh edit mode (see "## Findings").
`execute` is modelled as `Execute(DispatchAsWritten(mode), …)`.

Files:

- `vectors.dfy` (module `Vectors`): 3-vectors over exact reals, with subtraction, scaling and dot product.
- `clear_weight.dfy` (module `ClearWeight`): the data model and the specification functions.
  It also holds the operator as imperative methods:
  - `ExecuteObject` rewrites the deform layer, an `array` of per-vertex weight maps, in place.
  - `ClearVertexWeights` is the loop over one vertex's entries.
  - `CollectArmatures` is the loop over the modifier stack.
  - `Execute` runs the pass on the targets a `Dispatch` names, and `DispatchAsWritten` and `DispatchIntended` map the mode string to a `Dispatch`.
- `properties.dfy` (module `ClearWeightProperties`): lemmas about the specification.
  They cover which entries are cleared and which are kept, and how the two clearing modes relate.
  They show how the threshold and the offset move the cut, and that a second pass changes nothing.
  A few worked cases of the test are included.

`ExecuteObject` is proved against the specification function `PassResult`.
When the pass goes ahead, the new layer equals `PassResult` of the old layer.
When it cancels, the layer is unchanged.
The properties are proved about `PassResult` and `ClearedWeights`.

The test is a raw dot product, not an angle:

- Neither the bone vector nor the vertex vector is normalised, and the offset is scaled by the raw bone vector.
  `RawDotNotCosine` shows the difference: at threshold 1, a vertex in front of a unit bone's head is still cleared.
- There is no guard against a zero-length bone. Its dot product is 0, so its entries are cleared exactly when the threshold is positive (`ZeroLengthBone`).
- Entries of any weight are visited, including weight 0.

## Model

| member | source | states |
|---|---|---|
| ClearWeight.LinkedArmatures | __init__.py:68-74 | An armature is in the list iff some modifier of type `ARMATURE` points at it. |
| ClearWeight.LinkedArmaturesCount | __init__.py:68-76 | There are exactly as many linked armatures as positions in the stack holding an `ARMATURE` modifier with an object: duplicates are not merged. |
| ClearWeight.CollectArmatures | __init__.py:68-74 | The loop over the modifier stack returns exactly `LinkedArmatures` of the stack. |
| ClearWeight.FindBone | __init__.py:95-108 | A bone is found iff the chosen source holds that name: the pose bones for `POSE`, the armature's bones otherwise. |
| ClearWeight.DotValueFromHead | __init__.py:113-115 | The test value equals `dot(tail - head, pos - head)` plus the offset times the squared bone length: the offset moves the origin back along the raw bone vector. |
| ClearWeight.Behind | __init__.py:117 | An entry is behind iff `dot(tail - head, pos - head)` is strictly below the threshold minus the offset times the squared bone length. |
| ClearWeight.Clears | __init__.py:95-117 | An entry is cleared iff the bone of its name exists in the chosen source, passes the selected-bones filter with its own flag (the posed bone's flag for `POSE`), and its test value is strictly below the threshold; stated separately against the pose-bone table and the rest-bone table. |
| ClearWeight.Visited | __init__.py:83-85 | A vertex is skipped iff "selected vertices only" is on and the vertex is not selected. |
| ClearWeight.ClearedWeights | __init__.py:89-121 | For one vertex, an entry is cleared iff its bone exists, passes the selected-bones filter, and the dot product is strictly below the threshold. With `remove` a cleared key is deleted; otherwise it stays with weight 0. Every other entry keeps its weight. No key is ever added. |
| ClearWeight.ClearVertexWeights | __init__.py:89-121 | The loop over a vertex's entries, walked from a snapshot of its keys in any order, yields exactly `ClearedWeights`. |
| ClearWeight.PassResult | __init__.py:83-121 | After a pass, unvisited vertices (unselected, under "selected vertices only") keep their weight map. No vertex gains a key. Every surviving weight is either unchanged or 0. |
| ClearWeight.ExecuteObject | __init__.py:55-127 | Returns `Cancelled` iff there is no active deform layer or not exactly one linked armature; the layer is then unchanged. Otherwise the layer becomes `PassResult` of the old layer with that armature. No vertex gains a key, and every surviving weight is its old weight or 0. |
| ClearWeight.DispatchAsWritten | __init__.py:44-53 | Each selected object is processed iff the mode is `OBJECT`. The active object is processed iff the mode is `EDIT` or `PAINT_WEIGHT`. |
| ClearWeight.DispatchIntended | __init__.py:44-53 | Each selected object is processed iff the mode is `OBJECT`. The active object is processed iff the mode is one whose menu offers the operator (`EDIT_MESH`, `PAINT_WEIGHT`, registered at lines 144-145). |
| ClearWeight.Execute | __init__.py:44-53 | Always reports `Finished`. On the active object, its layer becomes one pass (or stays as it was when the pass cancels), and every selected layer other than the active one is unchanged. On each selected object, no layer gains a key and every surviving weight is its old weight or 0, even when objects share a layer. When their layers are pairwise distinct, each selected layer becomes one pass of its old contents, and an active layer that no selected object shares is unchanged. With no target nothing changes. |
| ClearWeightProperties.LinkedArmaturesAppend | __init__.py:68-74 | The armatures linked by a concatenated modifier stack are those of each part, in order. |
| ClearWeightProperties.IgnoredModifier | __init__.py:69-73 | A non-armature modifier, or an armature modifier without an object, anywhere in the stack, does not change the linked armatures. |
| ClearWeightProperties.TwoLinksCancel | __init__.py:68-77 | Any two positions in the stack holding an `ARMATURE` modifier with an object make the pass cancel, even when both point at the same armature. |
| ClearWeightProperties.OneLinkSuffices | __init__.py:65-77 | With an active layer and exactly one such modifier, the pass goes ahead with that modifier's armature. |
| ClearWeightProperties.MissingBoneKept | __init__.py:95-105 | An entry whose vertex group names no bone in the chosen source keeps its weight. |
| ClearWeightProperties.UnselectedBoneKept | __init__.py:110-111 | With "selected bones only", an entry whose bone is not selected keeps its weight. |
| ClearWeightProperties.PoseSelectionKept | __init__.py:95-111 | With `POSE` and "selected bones only", an entry whose pose bone's `bone.select` is off keeps its weight, whatever the rest bone of that name says (a combination the model allows; see "## Left out"). |
| ClearWeightProperties.RestSelectionKept | __init__.py:102-111 | With `BONE` and "selected bones only", an entry whose rest bone is unselected keeps its weight, whatever its pose bone says (a combination the model allows; see "## Left out"). |
| ClearWeightProperties.PoseIgnoresRestBones | __init__.py:95-101 | With `POSE`, replacing the armature's rest bones changes no vertex's result. |
| ClearWeightProperties.RestIgnoresPoseBones | __init__.py:102-108 | With `BONE`, replacing the armature's pose bones changes no vertex's result. |
| ClearWeightProperties.AtThresholdKept | __init__.py:117 | A dot product exactly equal to the threshold does not clear: the comparison is strict. |
| ClearWeightProperties.OffsetMonotone | __init__.py:113-117 | Whatever a larger offset clears, a smaller offset clears too. |
| ClearWeightProperties.ThresholdMonotone | __init__.py:117 | Whatever a threshold clears, a larger threshold clears too. |
| ClearWeightProperties.ZeroLengthBone | __init__.py:113-117 | A bone with head equal to tail gives dot product 0, so its entries are cleared iff the threshold is positive. |
| ClearWeightProperties.UpBoneHeight | __init__.py:113-115 | With no offset, the dot product against the unit bone from the origin up the z axis is the vertex's height. |
| ClearWeightProperties.BelowHeadIsBehind | __init__.py:113-117 | A vertex at (0,0,-1) is behind the upward unit bone at threshold 0. |
| ClearWeightProperties.BeyondTailIsNotBehind | __init__.py:113-117 | A vertex at (0,0,2) is not behind the upward unit bone at threshold 0. |
| ClearWeightProperties.RawDotNotCosine | __init__.py:113-117 | At threshold 1 a vertex at (0,0,0.5), in front of the upward unit bone's head, is still cleared, because the test is not a cosine. |
| ClearWeightProperties.RemoveIsZeroWithoutCleared | __init__.py:117-121 | Both modes clear the same entries. The delete mode's result is the zero mode's result without those entries. |
| ClearWeightProperties.ClearedWeightsIdempotent | __init__.py:113-121 | Clearing one vertex's weights a second time with the same inputs changes nothing, in both modes. |
| ClearWeightProperties.PassIdempotent | __init__.py:83-121 | A second pass with the same positions, armature and parameters leaves the layer as the first pass left it. |
| ClearWeightProperties.PassNoOp | __init__.py:83-121 | When no visited entry passes the test, the pass leaves the layer unchanged. |
| ClearWeightProperties.ClearedWeightsCommute | __init__.py:89-121 | Two clearings of one vertex's weights, with any vertex groups, positions and armatures, give the same map in either order. |
| ClearWeightProperties.PassesCommute | __init__.py:83-121 | Two passes over one shared deform layer, by objects with their own vertices, vertex groups and armatures, leave the same layer in either order, so the selection order does not matter. |
| ClearWeightProperties.EditMeshModeSkipped | __init__.py:48 | Mesh edit mode is one whose menu offers the operator, yet as written its mode string dispatches to no object. |
| ClearWeightProperties.MenuModesReachActive | __init__.py:44-53 | As intended, every mode whose menu offers the operator runs it on the active object. |
| ClearWeightProperties.DispatchesAgreeElsewhere | __init__.py:44-53 | The written and the intended dispatch agree on every mode string other than `EDIT_MESH` and `EDIT`. |

## Findings

| source | as written | input that shows it | evidently intended | confidence | as-written member | corrected member |
|---|---|---|---|---|---|---|
| __init__.py:48 | `bpy.context.mode == "EDIT"` selects the active object | the operator invoked from the mesh edit mode Weights menu (`__init__.py:144`), where the context mode is `EDIT_MESH` | run the pass on the active object in mesh edit mode, as in weight-paint mode | high (Blender's context mode names mesh edit mode `EDIT_MESH`); not executed | ClearWeightProperties.EditMeshModeSkipped | ClearWeightProperties.MenuModesReachActive |

`DispatchAsWritten` models line 48 as written and `EditMeshModeSkipped` exhibits the gap.
`DispatchIntended` compares with `EDIT_MESH` instead, and `MenuModesReachActive` proves that every mode whose menu offers the operator reaches the active object.
`Execute` takes the `Dispatch` as a parameter, so the pass itself is the same either way.

## Left out

- Mesh plumbing is left out: creating or borrowing the bmesh, the lookup table, writing back to the mesh and freeing it (`__init__.py:56-61`, `79`, `123-127`). The deform layer is an in-memory array of weight maps, and its final contents are what is written back.
- World transforms are left out: the object's and the armature's `matrix_world` (`__init__.py:81`, `87`, `93`, `99-100`, `106-107`). Positions, heads and tails are world-space inputs.
- Floating-point rounding is left out. The test uses exact real arithmetic.
- `dot_threshold` is declared with `min=-1.0, max=1.0`, hard limits that clamp any value assigned to it (`__init__.py:29-31`). The model accepts any real threshold, and every proved statement holds for all of them.
- Operator registration, the menu `draw` entry, `register` and `unregister` are UI glue (`__init__.py:130-158`).
- ClearWeight.ExecuteObject: requires every weight key of a visited vertex to index the object's vertex groups. A key at or beyond the number of vertex groups would make Python raise `IndexError` at `names[vertex_group_index]` (`__init__.py:90`), and that exception path is not modelled. Blender's deform group indices are never negative, so the negative keys the requires also excludes (which Python would index from the end) do not arise.
- ClearWeight.ExecuteObject: takes the single linked armature directly. The source loops over the list of armatures (`__init__.py:92`), which by then holds exactly one.
- ClearWeight.ExecuteObject: each vertex's entries are updated on a copy of its map, which is stored back before the next vertex. The source updates the map entry by entry, and no code runs in between that could observe the difference.
- ClearWeight.ExecuteObject: on success the source returns nothing (Python `None`); the model returns `Completed`. `execute` ignores the value either way.
- ClearWeight.Execute: on each selected object it states each layer's final contents only when the selected objects' layers are pairwise distinct. Several selected objects may share one mesh, and so one deform layer, each with its own world transform and vertex groups. Stating the composed contents of a shared layer needs a fold of `PassResult` over the selection. The passes commute (`PassesCommute`), but the composed result is not stated; only "keys shrink and survivors keep their weight or become 0" is.
- Armature: the model's armature holds its rest bones and its pose bones as two independent tables, and a pose bone carries its own copy of the bone it poses. In Blender a pose bone's `bone` is the armature's bone of the same name, and both tables hold the same names, so the pose path and the rest path read one `select` flag. The model allows states that Blender cannot produce, and no proof depends on them.
- ClearWeight.Execute: it takes the active object as a mesh object. The source would fail on a missing active object or a non-mesh selected object (`obj.data` is not a mesh), and those failures are not modelled.
