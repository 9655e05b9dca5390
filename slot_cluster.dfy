/** The storage-independent part of a slot cluster: the slot back-reference
    hooks, the size difference handed to the storage hook on a resize, and
    the opaque slot model reference. The per-storage classes (SlotClusterFixed,
    SlotClusterFlex) each carry the base class's size setter, SetBrain, Init
    and CleanUp, which dispatch to their own storage hooks. */
module Clusters {

  import opened Coords
  import opened Slots

  /** The slot model: float configuration that only feeds geometry. Only its
      identity (null or not) matters to the integer logic. */
  class SlotModel {
    constructor () {}
  }

  /** The optional result of a lookup that can fail (the brain's mapping of
      a world position to a coordinate). */
  datatype Option<T> = None | Some(value: T)

  /** Base OnSizeChanged: the size difference, new minus old, per axis. */
  function SizeDiff(newSize: ByteTrio, oldSize: ByteTrio): (d: Int3)
    ensures newSize.x == oldSize.x + d.x && newSize.y == oldSize.y + d.y && newSize.z == oldSize.z + d.z
  {
    Int3(newSize.x - oldSize.x, newSize.y - oldSize.y, newSize.z - oldSize.z)
  }

  /** The difference is zero on every axis exactly when the size did not
      change. */
  lemma SizeDiffZeroIff(newSize: ByteTrio, oldSize: ByteTrio)
    ensures SizeDiff(newSize, oldSize) == Int3(0, 0, 0) <==> newSize == oldSize
  {
  }

  /** No axis shrank exactly when the new extent covers the old (non-empty)
      one. */
  lemma NoAxisShrankIff(newSize: ByteTrio, oldSize: ByteTrio)
    requires oldSize.x > 0 && oldSize.y > 0 && oldSize.z > 0
    ensures (var d := SizeDiff(newSize, oldSize); d.x >= 0 && d.y >= 0 && d.z >= 0)
      <==> (forall c :: InExtent(c, oldSize) ==> InExtent(c, newSize))
  {
    var d := SizeDiff(newSize, oldSize);
    if !(d.x >= 0 && d.y >= 0 && d.z >= 0) {
      var far := ByteTrio(oldSize.x - 1, oldSize.y - 1, oldSize.z - 1);
      assert InExtent(far, oldSize) && !InExtent(far, newSize);
    }
  }

  /** The back-reference a slot keeps once its cluster removes it: cleared
      when it pointed at that cluster, untouched otherwise. */
  function Detached(owner: object, current: object?): (r: object?)
    ensures r == null || r == current
    ensures r == null <==> current == null || current == owner
  {
    if current == owner then null else current
  }

  /** OnSlotAdded: the slot now points back at the cluster. */
  method OnSlotAdded(owner: object, slot: Slot)
    modifies slot`cluster
    ensures slot.cluster == owner
  {
    slot.cluster := owner;
  }

  /** OnSlotRemoved: the back-reference is cleared only if it still points
      at this cluster. */
  method OnSlotRemoved(owner: object, slot: Slot)
    modifies slot`cluster
    ensures slot.cluster == Detached(owner, old(slot.cluster))
  {
    if slot.cluster == owner {
      slot.cluster := null;
    }
  }
}
