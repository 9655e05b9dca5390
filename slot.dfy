/** A lattice slot: the cell object a cluster stores. Only its integer state
    is modelled: the coordinates it was placed at and the back-reference to
    the cluster that holds it. Its world position is floating point and is
    not part of this model. */
module Slots {

  import opened Coords

  class Slot {
    /** m_coordinates */
    var coordinates: ByteTrio
    /** m_cluster: the owning cluster, or null. */
    var cluster: object?

    /** A new slot sits at coordinate zero and belongs to no cluster. */
    constructor ()
      ensures coordinates == Zero && cluster == null
    {
      coordinates := Zero;
      cluster := null;
    }

    /** The coordinates setter stores exactly the given value. */
    method SetCoordinates(c: ByteTrio)
      modifies this`coordinates
      ensures coordinates == c
    {
      coordinates := c;
    }

    /** The cluster setter stores exactly the given reference. */
    method SetCluster(c: object?)
      modifies this`cluster
      ensures cluster == c
    {
      cluster := c;
    }

    /** CleanUp resets the coordinates to zero; the back-reference to the
        cluster is left as it was. */
    method CleanUp()
      modifies this`coordinates
      ensures coordinates == Zero
      ensures cluster == old(cluster)
    {
      coordinates := Zero;
    }
  }
}
