# Nebukam cluster: a Dafny model of the slot clusters

This project models the integer core of Nebukam's `com.nebukam.cluster`. That
package organises *slots* on a 3-D lattice of byte coordinates (`ByteTrio`)
inside a *cluster*, and each cluster defers the lattice geometry to a *brain*.
The model covers:

- **Brains** (`DefaultBrain`, `CylinderBrain`). Each brain has a cluster
  extent and one wrap mode per axis (`NONE`, `LOOP`, or any other mode, which
  clamps). Every `Clamp` overload rewrites a coordinate axis by axis,
  including the `(byte)` conversions of the `ByteTrio` overloads and C#'s
  truncating `%`. `Contains` checks only the axes whose mode is `NONE`.
  `Capacity` is the extent's volume.
- **Slot** (`Slot`): a coordinate and a back-reference to its cluster.
- **Base cluster** (`SlotCluster`). It covers the size setter, `SetBrain`,
  the three `Init` overloads, `OnSlotAdded`, `OnSlotRemoved`, `CleanUp`,
  `TryGet(float3)`, and the per-axis size difference that `OnSizeChanged`
  returns.
- **Dense cluster** (`SlotClusterFixed`). Slots live in an array with one cell
  per lattice coordinate. The `planeOrder` setter derives the line and plane
  strides, and `IndexOf` clamps through the brain. The model covers `Set`,
  `Add`, `Remove`, both `TryGet` overloads, `Fill`, `Clear`, and the resize
  walk that moves every occupant to its new cell or pops it out.
- **Sparse cluster** (`SlotClusterFlex`). Slots are held in a list and in a
  dictionary keyed by coordinate. The model covers the same operations, plus
  the resize that collects the slots lying outside the old extent and removes
  them by position.
- **Socket tables** (`Sockets`): side and corner numbers, `MIRROR`, `OFFSETS`
  and `OFFSET_MIRROR`.
- **Coordinate-mapping job** (`ClusterMappingJob`): one pass that `TryAdd`s
  each input coordinate with its index.

Brains are C# structs, so they are Dafny datatypes, and their setters are
`With...` update functions. `Slot` and the two clusters are classes whose
methods update their fields in place.

The cluster classes do not inherit from a common base class in the model.
The shared base-class logic lives in module `Clusters` (`SizeDiff`,
`Detached`, `OnSlotAdded`, `OnSlotRemoved`). Each cluster class re-states the
shared steps (`SetSize`, `SetBrain`, `Init`, `CleanUp`) over its own storage.

Handing a slot back to its pool is recorded in a ghost set, `released`.
Taking a slot from a pool is a fresh allocation.

Where the code's behaviour is surprising, the model keeps the code's
behaviour and proves a lemma that exhibits it:

- **The z upper test.** The upper test on z compares against
  `clusterSize.y`, not `clusterSize.z`. See `ZTestLeavesOutOfRange`,
  `ZTestMovesInRange` and `ClampZCollision`.
- **`LOOP` on a negative multiple.** `LOOP` sends a negative multiple of the
  size to the size itself, so `Clamp` is not idempotent. See
  `LoopNegativeMultiple` and `ClampNotIdempotent`.
- **`IndexOf` ignores the order.** The dense cluster's `IndexOf` always uses
  the x-fastest formula with whatever strides the plane order set. Its `Fill`
  reads the same formula. See `OtherOrderOverruns`.
- **`TryGet(x, y, z)`.** The dense cluster's `TryGet(x, y, z)` has no check
  against the end of the array.
- **`Init` with wrap modes.** This overload builds a brain and then discards
  it, setting the current brain again.
- **The sparse cluster's resize.**
  - It tests slots against the *old* size, so a shrink removes nothing when
    every slot lies inside the old extent.
  - It removes slots by positions that go stale after the first removal, and
    can run past the end of the list.
  - It never updates the dictionary.
  - See `ResizeKeepsInsideOld`, `StaleIndicesDropWrongSlot` and
    `StaleIndicesOverrun`.
- **The sparse cluster's `Remove`** leaves the slot's back-reference in
  place.
- **`CleanUp`** zeroes the size field directly, without a resize.
- **`MIRROR`** lists every corner as its own mirror, while `OFFSET_MIRROR`
  negates the corner's offset. See `CornerMirrorOffset`.

## Model

| member | source | states |
|---|---|---|
| Wrapping.TruncMod | Runtime/Brains/DefaultBrain.cs:245 | C#'s `%`: matches the Euclidean remainder on non-negative dividends; on negative ones it lies in (-n, 0] and differs from it by n unless the dividend is a multiple of n |
| Wrapping.ToByte | Runtime/Brains/DefaultBrain.cs:158 | the `(byte)` cast yields a value in [0, 256) congruent to its argument mod 256 |
| Wrapping.WrapAxis | Runtime/Brains/DefaultBrain.cs:242-248 | per-axis rewrite: untouched unless the mode is not NONE and the component is out of [0, bound); a clamping axis gives 0 or size - 1; LOOP gives c mod size above, size + (c rem size) below |
| Wrapping.WrapAxisByte | Runtime/Brains/DefaultBrain.cs:155-161 | the byte overloads: an untouched component is kept, a rewritten one is the byte conversion of the reference rewrite |
| Wrapping.ByteCastAgrees | Runtime/Brains/DefaultBrain.cs:153-178 | for sizes 1..255 the byte overloads agree with the integer overloads |
| Wrapping.WrapByteKeepsInAxis | Runtime/Brains/DefaultBrain.cs:153-178 | an in-range component is kept by both families, given a clamping axis's bound exceeds it |
| Wrapping.ByteCastDiffersAtSizeZero | Runtime/Brains/DefaultBrain.cs:160 | with size 0 a clamping axis yields -1 in the integer overloads and 255 in the byte overloads |
| Wrapping.LoopNegativeMultiple | Runtime/Brains/DefaultBrain.cs:245 | LOOP sends every negative multiple of the size to the size itself, out of range |
| Wrapping.WrapLandsInAxis | Runtime/Brains/DefaultBrain.cs:242-248 | on an axis whose bound is its size, a rewritten component lands in [0, size) except on the LOOP seam |
| Wrapping.WrapIdempotentInAxis | Runtime/Brains/DefaultBrain.cs:242-248 | rewriting twice equals rewriting once when the first pass lands in range |
| Wrapping.LoopNotIdempotent | Runtime/Brains/DefaultBrain.cs:244-247 | the LOOP seam: -size goes to size, which a second pass sends to 0 |
| DefaultBrains.DefaultBrain.ClampInts | Runtime/Brains/DefaultBrain.cs:239-266 | NONE axes and in-range x, y components are kept; the z axis is compared with clusterSize.y and wrapped with clusterSize.z |
| DefaultBrains.DefaultBrain.Clamp | Runtime/Brains/DefaultBrain.cs:180-207 | same keep-guarantees as the integer version, on a coordinate with byte conversions |
| DefaultBrains.DefaultBrain.ClampCoords | Runtime/Brains/DefaultBrain.cs:209-237 | the three-int overload builds the same coordinate as Clamp(ByteTrio) |
| DefaultBrains.DefaultBrain.ClampRef | Runtime/Brains/DefaultBrain.cs:153-178 | the in-place rewrite leaves exactly Clamp(coord) |
| DefaultBrains.DefaultBrain.ClampRefInts | Runtime/Brains/DefaultBrain.cs:239-266 | the in-place integer rewrite leaves exactly ClampInts |
| DefaultBrains.DefaultBrain.ClampRefInt3 | Runtime/Brains/DefaultBrain.cs:268-295 | the int3 overload leaves exactly ClampInts |
| DefaultBrains.DefaultBrain.Capacity | Runtime/Brains/DefaultBrain.cs:103-106 | the volume is the number of coordinates of the extent |
| DefaultBrains.DefaultBrain.WithClusterSize | Runtime/Brains/DefaultBrain.cs:93-101 | the setter changes the extent and no wrap mode |
| DefaultBrains.DefaultBrain.WithWrapX | Runtime/Brains/DefaultBrain.cs:114-118 | the setter changes only wrapX |
| DefaultBrains.DefaultBrain.WithWrapY | Runtime/Brains/DefaultBrain.cs:120-124 | the setter changes only wrapY |
| DefaultBrains.DefaultBrain.WithWrapZ | Runtime/Brains/DefaultBrain.cs:126-130 | the setter changes only wrapZ |
| DefaultBrains.DefaultBrain.Contains | Runtime/Brains/DefaultBrain.cs:297-307 | Contains is false exactly when some NONE axis is out of range |
| DefaultBrains.ContainsAllWhenWrapped | Runtime/Brains/DefaultBrain.cs:297-307 | with no NONE axis every coordinate is contained |
| DefaultBrains.ZTestLeavesOutOfRange | Runtime/Brains/DefaultBrain.cs:262 | a wrapping z axis leaves a component in [size.z, size.y) outside the extent |
| DefaultBrains.ZTestMovesInRange | Runtime/Brains/DefaultBrain.cs:262-263 | a clamping z axis moves an in-range component in [size.y, size.z - 1) to size.z - 1 |
| DefaultBrains.ClampedContainedNonNegative | Runtime/Brains/DefaultBrain.cs:153-178 | a clamped coordinate the brain contains has no negative component |
| DefaultBrains.ContainsExtent | Runtime/Brains/DefaultBrain.cs:297-307 | every coordinate of the extent is contained |
| DefaultBrains.ClampLandsInExtent | Runtime/Brains/DefaultBrain.cs:239-266 | a contained coordinate off the LOOP seam is clamped into the extent when size.y <= size.z |
| DefaultBrains.ClampAgreesWithInts | Runtime/Brains/DefaultBrain.cs:180-207 | for extents of 1..255 per axis Clamp(ByteTrio) equals the integer rewrite |
| DefaultBrains.ClampIdentityOnExtent | Runtime/Brains/DefaultBrain.cs:180-207 | Clamp is the identity on the extent unless a clamping z axis is taller than size.y |
| DefaultBrains.ClampNotIdempotent | Runtime/Brains/DefaultBrain.cs:158 | with LOOP x of size 2, (-2,0,0) clamps to (2,0,0) and then to (0,0,0) |
| CylinderBrains.CylinderBrain.ClampInts | Runtime/Brains/CylinderBrain.cs:235-262 | as the default brain's integer rewrite |
| CylinderBrains.CylinderBrain.Clamp | Runtime/Brains/CylinderBrain.cs:176-203 | as the default brain's Clamp(ByteTrio) |
| CylinderBrains.CylinderBrain.ClampCoords | Runtime/Brains/CylinderBrain.cs:205-233 | the three-int overload builds the same coordinate as Clamp(ByteTrio) |
| CylinderBrains.CylinderBrain.ClampRef | Runtime/Brains/CylinderBrain.cs:149-174 | the in-place rewrite leaves exactly Clamp(coord) |
| CylinderBrains.CylinderBrain.ClampRefInts | Runtime/Brains/CylinderBrain.cs:235-262 | the in-place integer rewrite leaves exactly ClampInts |
| CylinderBrains.CylinderBrain.ClampRefInt3 | Runtime/Brains/CylinderBrain.cs:264-291 | the int3 overload leaves exactly ClampInts |
| CylinderBrains.CylinderBrain.Capacity | Runtime/Brains/CylinderBrain.cs:106-109 | the volume is the number of coordinates of the extent |
| CylinderBrains.CylinderBrain.WithClusterSize | Runtime/Brains/CylinderBrain.cs:96-104 | the setter changes the extent and no wrap mode |
| CylinderBrains.CylinderBrain.WithWrapX | Runtime/Brains/CylinderBrain.cs:117-121 | the setter changes only wrapX |
| CylinderBrains.CylinderBrain.WithWrapY | Runtime/Brains/CylinderBrain.cs:123-127 | the setter changes only wrapY |
| CylinderBrains.CylinderBrain.WithWrapZ | Runtime/Brains/CylinderBrain.cs:129-133 | the setter changes only wrapZ |
| CylinderBrains.AsDefault | Runtime/Brains/CylinderBrain.cs:56-61 | the Cartesian brain with the same modes and extent |
| CylinderBrains.AgreesWithDefault | Runtime/Brains/CylinderBrain.cs:149-304 | both brains clamp, contain and count identically, so every brain lemma carries over |
| CylinderBrains.CylinderBrain.Contains | Runtime/Brains/CylinderBrain.cs:293-304 | Contains is false exactly when some NONE axis is out of range, as for the Cartesian brain |
| CylinderBrains.ZTestLeavesOutOfRange | Runtime/Brains/CylinderBrain.cs:258-259 | the cylinder brain has the same z test against clusterSize.y |
| Coords.Volume | Runtime/SlotCluster.cs:244 | the volume of an extent is non-negative and positive only with three positive sides |
| Coords.XYZIndexInRange | Runtime/Clusters/SlotClusterFixed.cs:199 | the old-array index of the resize walk lies in [0, Volume) |
| Coords.XYZIndexInjective | Runtime/Clusters/SlotClusterFixed.cs:199 | distinct coordinates of the extent get distinct old-array indices |
| Coords.XYZIndexInjectiveNot | Runtime/Clusters/SlotClusterFixed.cs:199 | the contrapositive form of injectivity |
| Coords.XYZIndexOnto | Runtime/Clusters/SlotClusterFixed.cs:192-199 | every index of [0, Volume) is reached by a coordinate of the extent |
| Coords.DecodeIndex | Runtime/Clusters/SlotClusterFixed.cs:192-199 | decoding the index of a coordinate gives it back |
| Coords.VolumeCountsCoords | Runtime/SlotCluster.cs:244 | Capacity counts exactly the coordinates of the extent |
| FixedIndexing.StridesOf | Runtime/Clusters/SlotClusterFixed.cs:65-114 | the line length is the fastest axis's size, the plane length the line axis's size times the line length; both non-negative on an extent |
| FixedIndexing.DelegateIndex | Runtime/Clusters/SlotClusterFixed.cs:129-157 | each delegate is fastest component + line * line-axis component + plane * plane-axis component; the XYZ one is IndexOf's formula |
| FixedIndexing.DelegateIsLayout | Runtime/Clusters/SlotClusterFixed.cs:129-157 | every order's index delegate, with that order's strides, is a bijective layout of the extent onto [0, Volume) |
| FixedIndexing.IndexOfWith | Runtime/Clusters/SlotClusterFixed.cs:116-127 | -1 exactly when the clamped coordinate is not contained, otherwise the x-fastest formula on it |
| FixedIndexing.LinearIndexIsXYZDelegate | Runtime/Clusters/SlotClusterFixed.cs:124 | the formula IndexOf applies is the XYZ delegate's |
| FixedIndexing.IndexOfIsFillIndex | Runtime/Clusters/SlotClusterFixed.cs:116-127 | with an extent-keeping brain, IndexOf of an in-extent coordinate is the cell Fill reads, for any strides |
| FixedIndexing.IndexOfIsXYZ | Runtime/Clusters/SlotClusterFixed.cs:116-127 | with XYZ strides and an extent-keeping brain, IndexOf is the XYZ index and lies in [0, Volume) |
| FixedIndexing.IndexOfInjective | Runtime/Clusters/SlotClusterFixed.cs:116-127 | ... and is injective on the extent |
| FixedIndexing.OtherOrderOverruns | Runtime/Clusters/SlotClusterFixed.cs:124 | with YXZ strides on 2x3x1, (0,2,0) gets index 6 = Volume |
| FixedIndexing.ClampZCollision | Runtime/Clusters/SlotClusterFixed.cs:119-124 | a clamping z axis taller than y sends two cells of 1x1x3 to index 2 |
| Slots.Slot.constructor | Runtime/Slot.cs:35-36 | a new slot sits at zero with no cluster |
| Slots.Slot.SetCoordinates | Runtime/Slot.cs:38-42 | the setter stores the coordinate |
| Slots.Slot.SetCluster | Runtime/Slot.cs:44-48 | the setter stores the cluster |
| Slots.Slot.CleanUp | Runtime/Slot.cs:50-53 | coordinates reset to zero, cluster untouched |
| Clusters.SizeDiff | Runtime/SlotCluster.cs:228-234 | new size = old size + difference, per axis |
| Clusters.SizeDiffZeroIff | Runtime/SlotCluster.cs:228-234 | the difference is zero exactly when the size is unchanged |
| Clusters.NoAxisShrankIff | Runtime/Clusters/SlotClusterFlex.cs:77 | no negative component exactly when the new extent covers the old one |
| Clusters.Detached | Runtime/SlotCluster.cs:413-417 | the back-reference is cleared exactly when it was null or pointed at the cluster, otherwise kept |
| Clusters.OnSlotAdded | Runtime/SlotCluster.cs:403-407 | the slot points back at the cluster |
| Clusters.OnSlotRemoved | Runtime/SlotCluster.cs:413-417 | the back-reference becomes Detached(cluster, old reference) |
| FixedClusters.Vacate | Runtime/Clusters/SlotClusterFixed.cs:381-382 | same length, cell i emptied, every other cell kept |
| FixedClusters.Target | Runtime/Clusters/SlotClusterFixed.cs:204-205 | an old cell's new index is -1 or inside the new array |
| FixedClusters.Migrated | Runtime/Clusters/SlotClusterFixed.cs:192-221 | the resized array has the new volume |
| FixedClusters.Evicted | Runtime/Clusters/SlotClusterFixed.cs:207-212 | the popped-out slots are occupants of the visited old cells |
| FixedClusters.MigratedEmpty | Runtime/Clusters/SlotClusterFixed.cs:192-221 | resizing an empty array moves and evicts nothing |
| FixedClusters.MigratedKeeps | Runtime/Clusters/SlotClusterFixed.cs:213-217 | an occupant that does not pop out sits at its target unless a later occupant shares that target |
| FixedClusters.MigratedFromOld | Runtime/Clusters/SlotClusterFixed.cs:216 | the resized array holds only old occupants |
| FixedClusters.EvictedComplete | Runtime/Clusters/SlotClusterFixed.cs:207-212 | every occupant whose target is -1 is evicted |
| FixedClusters.WrappedEvictsNothing | Runtime/Clusters/SlotClusterFixed.cs:205-212 | with every axis wrapping nothing pops out |
| FixedClusters.MigratedInPlace | Runtime/Clusters/SlotClusterFixed.cs:192-221 | with XYZ order and an extent-keeping brain, an occupied coordinate inside both extents keeps its slot |
| FixedClusters.MigratedVacant | Runtime/Clusters/SlotClusterFixed.cs:192-221 | ... and an empty one stays empty |
| FixedClusters.TargetIsXYZ | Runtime/Clusters/SlotClusterFixed.cs:204-205 | such an occupant's target is the new XYZ index of its coordinate |
| FixedClusters.GrowTargetsInside | Runtime/Clusters/SlotClusterFixed.cs:192-221 | when no axis shrinks every occupant targets a coordinate of the new extent |
| FixedClusters.UnwrappedTargetsInside | Runtime/Clusters/SlotClusterFixed.cs:205-212 | with no wrapping, an occupant pops out exactly when its coordinate is outside the new extent |
| FixedClusters.FillFitsXYZ | Runtime/Clusters/SlotClusterFixed.cs:468-472 | with XYZ strides Fill's reads and Add's writes stay inside the array |
| FixedClusters.SlotClusterFixed.constructor | Runtime/Clusters/SlotClusterFixed.cs:39-51 | zero extent, no array, XYZ order, zero strides |
| FixedClusters.SlotClusterFixed.Count | Runtime/Clusters/SlotClusterFixed.cs:56 | the array length |
| FixedClusters.SlotClusterFixed.Capacity | Runtime/SlotCluster.cs:244 | the number of coordinates of the extent |
| FixedClusters.SlotClusterFixed.SetPlaneOrder | Runtime/Clusters/SlotClusterFixed.cs:65-114 | stores the order; the strides become those of the order on the current extent |
| FixedClusters.SlotClusterFixed.IndexOf | Runtime/Clusters/SlotClusterFixed.cs:116-127 | -1 exactly when the clamped coordinate is not contained, otherwise the x-fastest formula |
| FixedClusters.SlotClusterFixed.Remove | Runtime/Clusters/SlotClusterFixed.cs:374-391 | returns the former occupant (null for -1) and empties its cell; nothing else changes |
| FixedClusters.SlotClusterFixed.Add | Runtime/Clusters/SlotClusterFixed.cs:349-372 | -1 gives null; an occupant is returned; an empty cell gets a fresh slot at the raw coordinate, owned by the cluster |
| FixedClusters.SlotClusterFixed.Set | Runtime/Clusters/SlotClusterFixed.cs:298-347 | the slot ends at coord and is returned; its old cell is vacated; a different occupant is detached and released on request |
| FixedClusters.SlotClusterFixed.TryGet | Runtime/Clusters/SlotClusterFixed.cs:393-414 | fails for -1, past the end or an empty cell, else yields the occupant |
| FixedClusters.SlotClusterFixed.TryGetAt | Runtime/Clusters/SlotClusterFixed.cs:416-431 | the same lookup without the end-of-array check |
| FixedClusters.SlotClusterFixed.TryGetLocation | Runtime/SlotCluster.cs:377-386 | succeeds exactly when a coordinate was located and its cell holds a slot |
| FixedClusters.SlotClusterFixed.Fill | Runtime/Clusters/SlotClusterFixed.cs:446-477 | occupied cells kept; each new cell holds a fresh slot of the cluster filed there; every coordinate whose IndexOf is Fill's formula is occupied, hence every in-extent coordinate's cell when the brain keeps the extent |
| FixedClusters.SlotClusterFixed.FillCell | Runtime/Clusters/SlotClusterFixed.cs:467-472 | one step keeps the Fill invariant and advances it by one coordinate |
| FixedClusters.SlotClusterFixed.Clear | Runtime/Clusters/SlotClusterFixed.cs:482-503 | every cell emptied, every occupant detached, released on request |
| FixedClusters.SlotClusterFixed.OnSizeChanged | Runtime/Clusters/SlotClusterFixed.cs:161-224 | first array allocated empty; unchanged size keeps the array; otherwise the array is Migrated and the Evicted slots are detached and released; returns SizeDiff |
| FixedClusters.SlotClusterFixed.MoveOccupants | Runtime/Clusters/SlotClusterFixed.cs:192-221 | the walk leaves Migrated and releases Evicted |
| FixedClusters.SlotClusterFixed.MoveWalk | Runtime/Clusters/SlotClusterFixed.cs:192-221 | the z and y loops carry the walk state from index 0 to Volume |
| FixedClusters.SlotClusterFixed.MoveLine | Runtime/Clusters/SlotClusterFixed.cs:196-219 | one line advances the walk state to the next line |
| FixedClusters.SlotClusterFixed.MoveCell | Runtime/Clusters/SlotClusterFixed.cs:199-217 | one cell advances the walk state by one index |
| FixedClusters.SlotClusterFixed.SetSize | Runtime/SlotCluster.cs:215-226 | equal size changes nothing; otherwise the size and brain extent change and the array is resized |
| FixedClusters.SlotClusterFixed.SetBrain | Runtime/SlotCluster.cs:192-200 | stores the brain and assigns its extent through the size setter |
| FixedClusters.SlotClusterFixed.Init | Runtime/Clusters/SlotClusterFixed.cs:255-264 | the cluster holds the model, brain and order; old occupants detached and released; filled on request |
| FixedClusters.SlotClusterFixed.InitBrain | Runtime/SlotCluster.cs:271-284 | Clear(true), store the model, SetBrain, Fill on request |
| FixedClusters.SlotClusterFixed.Configure | Runtime/SlotCluster.cs:278-283 | on an emptied cluster: model stored, brain set, filled on request, nothing released |
| FixedClusters.SlotClusterFixed.InitWithSize | Runtime/Clusters/SlotClusterFixed.cs:266-274 | as Init with the current brain resized |
| FixedClusters.SlotClusterFixed.InitWithWraps | Runtime/Clusters/SlotClusterFixed.cs:276-288 | as Init with the current brain: the wraps and size arguments have no effect |
| FixedClusters.SlotClusterFixed.CleanUp | Runtime/SlotCluster.cs:436-441 | cleared without release, model dropped, size zero; brain, strides and array kept |
| FixedClusters.SlotClusterFixed.FillCoversExtent | Runtime/Clusters/SlotClusterFixed.cs:446-477 | after a filling XYZ Init, cell x + X*y + X*Y*z holds the slot of (x, y, z) |
| FlexClusters.ListIndexOf | Runtime/Clusters/SlotClusterFlex.cs:68 | the first position of the slot, -1 exactly when absent |
| FlexClusters.ListRemove | Runtime/Clusters/SlotClusterFlex.cs:194 | drops the first occurrence, keeping the rest in order |
| FlexClusters.RemoveAt | Runtime/Clusters/SlotClusterFlex.cs:104 | one shorter, later elements shift down |
| FlexClusters.RemoveEach | Runtime/Clusters/SlotClusterFlex.cs:101-107 | the list after the RemoveAt calls is shorter by their number |
| FlexClusters.OutgoingExact | Runtime/Clusters/SlotClusterFlex.cs:91-99 | the outgoing list holds exactly, in increasing order, the positions and slots lying at or beyond the old size |
| FlexClusters.ResizeKeepsInsideOld | Runtime/Clusters/SlotClusterFlex.cs:96 | with every slot inside the old extent, a resize removes and releases nothing |
| FlexClusters.StaleIndicesDropWrongSlot | Runtime/Clusters/SlotClusterFlex.cs:101-107 | on [a, b, c] with a, b outgoing the resize leaves [b] and releases a and b |
| FlexClusters.StaleIndicesOverrun | Runtime/Clusters/SlotClusterFlex.cs:101-107 | two outgoing slots at the end make the second RemoveAt overrun |
| FlexClusters.SlotClusterFlex.constructor | Runtime/Clusters/SlotClusterFlex.cs:50-51 | zero extent, empty list and dictionary |
| FlexClusters.SlotClusterFlex.Count | Runtime/Clusters/SlotClusterFlex.cs:56 | the list length |
| FlexClusters.SlotClusterFlex.Capacity | Runtime/SlotCluster.cs:244 | the number of coordinates of the extent |
| FlexClusters.SlotClusterFlex.IndexOf | Runtime/Clusters/SlotClusterFlex.cs:65-71 | -1 exactly when the clamped coordinate has no slot or its slot is not listed, else its list position |
| FlexClusters.SlotClusterFlex.OnSlotAdded | Runtime/Clusters/SlotClusterFlex.cs:232-237 | files the slot under its coordinate and points it at the cluster |
| FlexClusters.SlotClusterFlex.Add | Runtime/Clusters/SlotClusterFlex.cs:169-181 | a filed coordinate returns its slot; otherwise a fresh slot is appended and filed there |
| FlexClusters.SlotClusterFlex.Remove | Runtime/Clusters/SlotClusterFlex.cs:188-200 | the filed slot is unfiled and removed from the list; the back-reference is kept |
| FlexClusters.SlotClusterFlex.Set | Runtime/Clusters/SlotClusterFlex.cs:121-161 | the slot ends filed at coord and listed; a different slot there is unlisted, detached and released on request |
| FlexClusters.SlotClusterFlex.Place | Runtime/Clusters/SlotClusterFlex.cs:143-160 | the second half of Set on the emptied filing |
| FlexClusters.SlotClusterFlex.TryGet | Runtime/Clusters/SlotClusterFlex.cs:209-212 | found exactly when the clamped coordinate is filed |
| FlexClusters.SlotClusterFlex.TryGetAt | Runtime/Clusters/SlotClusterFlex.cs:223-226 | found exactly when the integer-clamped coordinate is filed |
| FlexClusters.SlotClusterFlex.TryGetLocation | Runtime/SlotCluster.cs:377-386 | found exactly when a coordinate was located and its clamp is filed |
| FlexClusters.SlotClusterFlex.Fill | Runtime/Clusters/SlotClusterFlex.cs:255-284 | old entries kept; new keys are extent coordinates with fresh slots; every extent coordinate ends filed, clamped or raw |
| FlexClusters.SlotClusterFlex.FillCell | Runtime/Clusters/SlotClusterFlex.cs:278-280 | one step keeps the Fill invariant and advances it |
| FlexClusters.SlotClusterFlex.AddMissing | Runtime/Clusters/SlotClusterFlex.cs:280 | Fill's Add files the coordinate and keeps the Fill invariant |
| FlexClusters.SlotClusterFlex.Clear | Runtime/Clusters/SlotClusterFlex.cs:289-303 | list and dictionary emptied; listed slots detached and released on request |
| FlexClusters.SlotClusterFlex.OnSizeChanged | Runtime/Clusters/SlotClusterFlex.cs:73-112 | the list becomes Resized, ResizeEvicted is detached and released, the dictionary is untouched; returns SizeDiff |
| FlexClusters.SlotClusterFlex.CollectOutgoing | Runtime/Clusters/SlotClusterFlex.cs:91-99 | the collected list is the outgoing list of the old size |
| FlexClusters.SlotClusterFlex.RemoveOutgoing | Runtime/Clusters/SlotClusterFlex.cs:101-107 | the list becomes RemoveEach; every outgoing slot is detached and released |
| FlexClusters.SlotClusterFlex.RemoveStep | Runtime/Clusters/SlotClusterFlex.cs:103-106 | one RemoveAt, OnSlotRemoved and Release |
| FlexClusters.SlotClusterFlex.SetSize | Runtime/SlotCluster.cs:215-226 | equal size changes nothing; otherwise the size and brain extent change and the list is Resized |
| FlexClusters.SlotClusterFlex.SetBrain | Runtime/SlotCluster.cs:192-200 | stores the brain and assigns its extent through the size setter |
| FlexClusters.SlotClusterFlex.Init | Runtime/SlotCluster.cs:271-284 | the cluster holds the model and brain; listed slots detached and released; filled on request |
| FlexClusters.SlotClusterFlex.InitWithSize | Runtime/SlotCluster.cs:286-300 | as Init with the current brain resized |
| FlexClusters.SlotClusterFlex.InitWithWraps | Runtime/SlotCluster.cs:302-324 | as Init with the current brain: the wraps and size arguments have no effect |
| FlexClusters.SlotClusterFlex.CleanUp | Runtime/SlotCluster.cs:436-441 | cleared without release, model dropped, size zero; brain kept |
| FlexClusters.SlotClusterFlex.FillCoversExtent | Runtime/Clusters/SlotClusterFlex.cs:255-284 | after a filling Init the dictionary's keys are exactly the extent, Count = Capacity, and IndexOf finds each slot |
| Sockets.Mirror | Runtime/Sockets.cs:53-69 | a side's mirror is its opposite side; a corner is its own mirror |
| Sockets.Offset | Runtime/Sockets.cs:89-104 | a side moves one step on one axis, a corner one step on all three |
| Sockets.OffsetMirror | Runtime/Sockets.cs:106-121 | each entry is the socket's offset negated |
| Sockets.CornerOffsetsAreSums | Runtime/Sockets.cs:80-87 | each corner offset is the sum of its three side offsets |
| Sockets.TableSizes | Runtime/Sockets.cs:53-121 | the three tables have one entry per socket |
| Sockets.MirrorInvolution | Runtime/Sockets.cs:53-69 | mirroring twice gives the socket back |
| Sockets.SideMirrorOffset | Runtime/Sockets.cs:53-59 | for a side, the offset of its mirror is its mirrored offset |
| Sockets.CornerMirrorOffset | Runtime/Sockets.cs:60-68 | for a corner the two tables disagree; its mirrored offset is the offset of corner 19 - i |
| Sockets.OffsetsDistinct | Runtime/Sockets.cs:89-104 | the fourteen offsets are pairwise distinct |
| ClusterMapping.TryAdd | Runtime/Jobs/ClusterMappingJob.cs:48 | the key is added; an existing entry is kept; other entries unchanged |
| ClusterMapping.MappedKeys | Runtime/Jobs/ClusterMappingJob.cs:45-49 | the keys are the given keys plus every coordinate seen |
| ClusterMapping.MappedKeepsExisting | Runtime/Jobs/ClusterMappingJob.cs:48 | an entry present before the job keeps its value |
| ClusterMapping.MappedFirstOccurrence | Runtime/Jobs/ClusterMappingJob.cs:45-49 | a new key is filed under the index of its first occurrence |
| ClusterMapping.MappedDistinct | Runtime/Jobs/ClusterMappingJob.cs:45-49 | with distinct new inputs every input is filed under its own index |
| ClusterMapping.ClusterMappingJob.constructor | Runtime/Jobs/ClusterMappingJob.cs:40-43 | stores the inputs and the map |
| ClusterMapping.ClusterMappingJob.Execute | Runtime/Jobs/ClusterMappingJob.cs:45-49 | the map becomes the fold of TryAdd over the inputs; every input is a key |

## Left out

- Floating-point geometry is not modelled: positions, `ComputePosition`, bounds, `TryGetCoordOf`, `Contains(float3)`, `UpdatePositions`, and the `GetNearestVertex` family. `TryGet(float3)` takes the brain's located coordinate as a parameter.
- `ClusterBrain`, `ClusterProvider`, `SlotInfos`, `SlotModel` data and the drawer are not part of this model. `SlotModel` is an opaque class, and the slot infos enter the mapping job through their coordinates alone.
- The slot and cluster pools are not modelled. `Release` adds to the ghost set `released`, and `Rent` is a fresh allocation.
- Exceptions are not modelled. An index out of range or a null dereference in the code is a `requires` that rules it out, for example `ResizeFits`, `FillFits` and `MigrationFits`, and `|slotList| <= Volume(size)` on the sparse cluster's Fill, which stands for the exception the `List.Capacity` setter throws when the capacity is set below the count. `StaleIndicesOverrun` shows a reachable overrun.
- The dense cluster's cached index delegates (`m_indexOf`) are not modelled, because `IndexOf` never calls them. Their formulas are `DelegateIndex`.
- The indexers `this[int]` and `this[IVertex]` are not modelled; they are plain reads of the list or of `IndexOf`.
- The dense cluster's Init overloads without an order are not modelled separately. They forward with XYZ, which is `Init` with `order == XYZ`.
- `ByteTrio` is modelled with unbounded components. Byte truncation is explicit where the brain converts to bytes; elsewhere components are kept as integers, and lemmas that need byte range assume `IsByteExtent`.
- `Unity.Collections` containers (`NativeArray`, `NativeHashMap`) are modelled as an array and a map; job scheduling and concurrency are left out.
- FixedClusters.SlotClusterFixed.Fill: states occupancy of every in-extent cell only when the brain keeps the extent (`ClampKeepsExtent`, proved through `IndexOfIsFillIndex`). The index Fill reads and the one `Add` files under differ only when the clamp moves an in-extent coordinate: a clamping z axis taller than size.y (`ClampZCollision`) or a brain extent other than the cluster's. Then the cell Fill reads can stay empty while `Add` files or returns a slot elsewhere, and the model states only that occupied cells are kept and new cells hold fresh slots filed there.
- FlexClusters.SlotClusterFlex.Fill: states coverage only as "the clamped or the raw coordinate is filed", because `TryGet` clamps while `Add` does not.
