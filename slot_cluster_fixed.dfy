/** SlotClusterFixed: the dense cluster. Its slots live in an array with one
    cell per lattice coordinate, addressed through IndexOf. */
module FixedClusters {

  import opened Arith
  import opened Coords
  import opened Wrapping
  import opened DefaultBrains
  import opened FixedIndexing
  import opened Slots
  import opened Clusters

  /** The slots held by a sequence of cells. */
  function CellSet(cells: seq<Slot?>): set<Slot> {
    set s: Slot | s in cells
  }

  /** Extending a prefix by one cell adds that cell's slot, if any. */
  lemma CellSetStep(cells: seq<Slot?>, i: int)
    requires 0 <= i < |cells|
    ensures CellSet(cells[..i + 1]) == CellSet(cells[..i]) + (if cells[i] != null then {cells[i]} else {})
  {
    assert cells[..i + 1] == cells[..i] + [cells[i]];
  }

  /** The cells after Remove has emptied cell i (-1: nothing removed). */
  function Vacate(cells: seq<Slot?>, i: int): (r: seq<Slot?>)
    ensures |r| == |cells|
    ensures forall k :: 0 <= k < |cells| ==> r[k] == (if k == i then null else cells[k])
  {
    if 0 <= i < |cells| then cells[i := null] else cells
  }

  /** The indices Fill computes and the cells Add reaches for the extent s
      all lie inside an array of n cells. */
  ghost predicate FillFits(b: DefaultBrain, st: Strides, s: ByteTrio, n: int) {
    forall c :: InExtent(c, s) ==>
      0 <= LinearIndex(c, st) < n && b.ClampDefined(c.x, c.y, c.z) && IndexOfWith(b, st, c) < n
  }

  /** OnSizeChanged can move every occupied cell of the old array cells0:
      the array covers the old extent, and the coordinate of each occupied
      cell k (its XYZ index in the old extent) is one the brain can process
      and that IndexOf, with the strides st, sends to -1 or into an array of
      n cells. */
  ghost predicate MigrationFits(b: DefaultBrain, st: Strides, oldS: ByteTrio, n: int, cells0: seq<Slot?>) {
    IsExtent(oldS) && st.line >= 0 && st.plane >= 0 && n >= 0 && Volume(oldS) <= |cells0|
    && forall k :: 0 <= k < Volume(oldS) && cells0[k] != null ==>
         var c := XYZDecode(k, oldS);
         b.ClampDefined(c.x, c.y, c.z) && IndexOfWith(b, st, c) < n
  }

  /** The cell of the resized array that the occupied old cell k moves to,
      or -1 when its coordinate pops out. */
  function Target(cells0: seq<Slot?>, b: DefaultBrain, st: Strides, oldS: ByteTrio, n: int, k: int): (r: int)
    requires MigrationFits(b, st, oldS, n, cells0) && 0 <= k < Volume(oldS) && cells0[k] != null
    ensures -1 <= r < n
  {
    IndexOfWith(b, st, XYZDecode(k, oldS))
  }

  /** The resized array after the walk has visited the old cells 0 .. t-1
      (the walk order of OnSizeChanged is increasing XYZ index): each
      occupied cell that does not pop out is written to its target, a later
      write overwriting an earlier one. */
  function Migrated(cells0: seq<Slot?>, b: DefaultBrain, st: Strides, oldS: ByteTrio, n: int, t: int): (r: seq<Slot?>)
    requires MigrationFits(b, st, oldS, n, cells0) && 0 <= t <= Volume(oldS)
    ensures |r| == n
    decreases t
  {
    if t == 0 then seq(n, _ => null)
    else
      var prev := Migrated(cells0, b, st, oldS, n, t - 1);
      if cells0[t - 1] == null then prev
      else
        var j := Target(cells0, b, st, oldS, n, t - 1);
        if j == -1 then prev else prev[j := cells0[t - 1]]
  }

  /** The slots among the old cells 0 .. t-1 whose coordinate pops out. */
  function Evicted(cells0: seq<Slot?>, b: DefaultBrain, st: Strides, oldS: ByteTrio, n: int, t: int): (r: set<Slot>)
    requires MigrationFits(b, st, oldS, n, cells0) && 0 <= t <= Volume(oldS)
    ensures r <= CellSet(cells0[..t])
    decreases t
  {
    if t == 0 then {}
    else
      var prev := Evicted(cells0, b, st, oldS, n, t - 1);
      assert CellSet(cells0[..t - 1]) <= CellSet(cells0[..t]) by {
        CellSetStep(cells0, t - 1);
      }
      if cells0[t - 1] == null then prev
      else if Target(cells0, b, st, oldS, n, t - 1) == -1 then
        assert cells0[t - 1] in CellSet(cells0[..t]) by {
          assert cells0[..t][t - 1] == cells0[t - 1];
        }
        prev + {cells0[t - 1]}
      else prev
  }

  /** Nothing moves and nothing pops out of an empty array. */
  lemma {:induction false} MigratedEmpty(cells0: seq<Slot?>, b: DefaultBrain, st: Strides, oldS: ByteTrio, n: int, t: int)
    requires MigrationFits(b, st, oldS, n, cells0) && 0 <= t <= Volume(oldS)
    requires forall k :: 0 <= k < |cells0| ==> cells0[k] == null
    ensures Migrated(cells0, b, st, oldS, n, t) == seq(n, _ => null)
    ensures Evicted(cells0, b, st, oldS, n, t) == {}
  {
    if t > 0 {
      MigratedEmpty(cells0, b, st, oldS, n, t - 1);
    }
  }

  /** An array that covers the extent covers it once longer. */
  lemma FillFitsGrow(b: DefaultBrain, st: Strides, s: ByteTrio, n: int, m: int)
    requires FillFits(b, st, s, n) && n <= m
    ensures FillFits(b, st, s, m)
  {
  }

  /** The last write wins: an occupied old cell k that does not pop out
      ends up in its target unless a later occupied cell has the same
      target. */
  lemma {:induction false} MigratedKeeps(cells0: seq<Slot?>, b: DefaultBrain, st: Strides, oldS: ByteTrio, n: int, t: int, k: int)
    requires MigrationFits(b, st, oldS, n, cells0) && 0 <= k < t <= Volume(oldS)
    requires cells0[k] != null && Target(cells0, b, st, oldS, n, k) != -1
    requires forall k' :: k < k' < t && cells0[k'] != null ==>
      Target(cells0, b, st, oldS, n, k') != Target(cells0, b, st, oldS, n, k)
    ensures Migrated(cells0, b, st, oldS, n, t)[Target(cells0, b, st, oldS, n, k)] == cells0[k]
  {
    if k < t - 1 {
      MigratedKeeps(cells0, b, st, oldS, n, t - 1, k);
    }
  }

  /** The resized array holds only slots of the old array. */
  lemma {:induction false} MigratedFromOld(cells0: seq<Slot?>, b: DefaultBrain, st: Strides, oldS: ByteTrio, n: int, t: int)
    requires MigrationFits(b, st, oldS, n, cells0) && 0 <= t <= Volume(oldS)
    ensures forall j :: 0 <= j < n && Migrated(cells0, b, st, oldS, n, t)[j] != null ==>
      Migrated(cells0, b, st, oldS, n, t)[j] in cells0[..t]
  {
    if t > 0 {
      MigratedFromOld(cells0, b, st, oldS, n, t - 1);
      assert cells0[..t] == cells0[..t - 1] + [cells0[t - 1]];
    }
  }

  /** Every occupied old cell whose coordinate pops out is evicted. */
  lemma {:induction false} EvictedComplete(cells0: seq<Slot?>, b: DefaultBrain, st: Strides, oldS: ByteTrio, n: int, t: int, k: int)
    requires MigrationFits(b, st, oldS, n, cells0) && 0 <= k < t <= Volume(oldS)
    requires cells0[k] != null && Target(cells0, b, st, oldS, n, k) == -1
    ensures cells0[k] in Evicted(cells0, b, st, oldS, n, t)
  {
    if k < t - 1 {
      EvictedComplete(cells0, b, st, oldS, n, t - 1, k);
    }
  }

  /** A brain that wraps or clamps every axis contains every coordinate, so
      a resize evicts nothing. */
  lemma {:induction false} WrappedEvictsNothing(cells0: seq<Slot?>, b: DefaultBrain, st: Strides, oldS: ByteTrio, n: int, t: int)
    requires MigrationFits(b, st, oldS, n, cells0) && 0 <= t <= Volume(oldS)
    requires b.wrapX != WrapMode.None && b.wrapY != WrapMode.None && b.wrapZ != WrapMode.None
    ensures Evicted(cells0, b, st, oldS, n, t) == {}
  {
    if t > 0 {
      WrappedEvictsNothing(cells0, b, st, oldS, n, t - 1);
      if cells0[t - 1] != null {
        ContainsAllWhenWrapped(b, b.Clamp(XYZDecode(t - 1, oldS)));
      }
    }
  }

  /** Every occupied old cell that does not pop out targets a coordinate
      of the new extent s. */
  ghost predicate TargetsInside(cells0: seq<Slot?>, b: DefaultBrain, st: Strides, oldS: ByteTrio, n: int, s: ByteTrio)
    requires MigrationFits(b, st, oldS, n, cells0)
  {
    forall k :: 0 <= k < Volume(oldS) && cells0[k] != null && Target(cells0, b, st, oldS, n, k) != -1 ==>
      InExtent(XYZDecode(k, oldS), s)
  }

  /** With XYZ strides and a brain that keeps the new extent s, an occupied
      coordinate of the old extent that lies inside s keeps its slot: the
      resized array holds it at the XYZ index of that coordinate in s. */
  lemma MigratedInPlace(cells0: seq<Slot?>, b: DefaultBrain, oldS: ByteTrio, s: ByteTrio, c: ByteTrio)
    requires ClampKeepsExtent(b, s)
    requires MigrationFits(b, StridesOf(XYZ, s), oldS, Volume(s), cells0)
    requires TargetsInside(cells0, b, StridesOf(XYZ, s), oldS, Volume(s), s)
    requires InExtent(c, oldS) && InExtent(c, s)
    ensures 0 <= XYZIndex(c, oldS) < Volume(oldS) && 0 <= XYZIndex(c, s) < Volume(s)
    ensures Migrated(cells0, b, StridesOf(XYZ, s), oldS, Volume(s), Volume(oldS))[XYZIndex(c, s)]
      == cells0[XYZIndex(c, oldS)]
  {
    var st := StridesOf(XYZ, s);
    var k := XYZIndex(c, oldS);
    DecodeIndex(c, oldS);
    IndexOfIsXYZ(b, s, c);
    XYZIndexInRange(c, s);
    var m := Migrated(cells0, b, st, oldS, Volume(s), Volume(oldS));
    if cells0[k] != null {
      forall k' | k < k' < Volume(oldS) && cells0[k'] != null
        ensures Target(cells0, b, st, oldS, Volume(s), k') != Target(cells0, b, st, oldS, Volume(s), k)
      {
        var c' := XYZDecode(k', oldS);
        if Target(cells0, b, st, oldS, Volume(s), k') == Target(cells0, b, st, oldS, Volume(s), k) {
          XYZIndexOnto(k', oldS);
          IndexOfInjective(b, s, c', c);
        }
      }
      MigratedKeeps(cells0, b, st, oldS, Volume(s), Volume(oldS), k);
    } else {
      MigratedVacant(cells0, b, st, oldS, Volume(s), Volume(oldS), k, c, s);
    }
  }

  /** ... and the cell of an empty old coordinate inside s stays empty. */
  lemma {:induction false} MigratedVacant(cells0: seq<Slot?>, b: DefaultBrain, st: Strides, oldS: ByteTrio, n: int, t: int,
                                          k: int, c: ByteTrio, s: ByteTrio)
    requires ClampKeepsExtent(b, s) && st == StridesOf(XYZ, s) && n == Volume(s)
    requires MigrationFits(b, st, oldS, n, cells0) && 0 <= t <= Volume(oldS)
    requires TargetsInside(cells0, b, st, oldS, n, s)
    requires InExtent(c, oldS) && InExtent(c, s) && k == XYZIndex(c, oldS)
    requires 0 <= k < Volume(oldS) && cells0[k] == null
    ensures 0 <= XYZIndex(c, s) < n
    ensures Migrated(cells0, b, st, oldS, n, t)[XYZIndex(c, s)] == null
  {
    XYZIndexInRange(c, s);
    if t > 0 {
      MigratedVacant(cells0, b, st, oldS, n, t - 1, k, c, s);
      if cells0[t - 1] != null && Target(cells0, b, st, oldS, n, t - 1) != -1 {
        TargetIsXYZ(cells0, b, oldS, s, t - 1);
        var c' := XYZDecode(t - 1, oldS);
        if c' == c {
          assert false;
        }
        XYZIndexInjectiveNot(c', c, s);
      }
    }
  }

  /** The target of an occupied old cell k that lands inside the new
      extent s is the XYZ index in s of the coordinate of k. */
  lemma TargetIsXYZ(cells0: seq<Slot?>, b: DefaultBrain, oldS: ByteTrio, s: ByteTrio, k: int)
    requires ClampKeepsExtent(b, s)
    requires MigrationFits(b, StridesOf(XYZ, s), oldS, Volume(s), cells0)
    requires TargetsInside(cells0, b, StridesOf(XYZ, s), oldS, Volume(s), s)
    requires 0 <= k < Volume(oldS) && cells0[k] != null && Target(cells0, b, StridesOf(XYZ, s), oldS, Volume(s), k) != -1
    ensures InExtent(XYZDecode(k, oldS), oldS) && InExtent(XYZDecode(k, oldS), s)
    ensures XYZIndex(XYZDecode(k, oldS), oldS) == k
    ensures Target(cells0, b, StridesOf(XYZ, s), oldS, Volume(s), k) == XYZIndex(XYZDecode(k, oldS), s)
  {
    XYZIndexOnto(k, oldS);
    IndexOfIsXYZ(b, s, XYZDecode(k, oldS));
  }

  /** Growing: when the new extent covers the old one, every occupied cell
      targets a coordinate inside it. */
  lemma GrowTargetsInside(cells0: seq<Slot?>, b: DefaultBrain, st: Strides, oldS: ByteTrio, n: int, s: ByteTrio)
    requires MigrationFits(b, st, oldS, n, cells0)
    requires oldS.x <= s.x && oldS.y <= s.y && oldS.z <= s.z
    ensures TargetsInside(cells0, b, st, oldS, n, s)
  {
    forall k | 0 <= k < Volume(oldS) && cells0[k] != null && Target(cells0, b, st, oldS, n, k) != -1
      ensures InExtent(XYZDecode(k, oldS), s)
    {
      XYZIndexOnto(k, oldS);
    }
  }

  /** A brain that wraps no axis and spans the new extent s sends an old
      coordinate to -1 exactly when it lies outside s: every occupied cell
      that does not pop out targets a coordinate inside s. */
  lemma UnwrappedTargetsInside(cells0: seq<Slot?>, b: DefaultBrain, st: Strides, oldS: ByteTrio, n: int, s: ByteTrio)
    requires MigrationFits(b, st, oldS, n, cells0)
    requires b.wrapX == WrapMode.None && b.wrapY == WrapMode.None && b.wrapZ == WrapMode.None && b.clusterSize == s
    ensures TargetsInside(cells0, b, st, oldS, n, s)
    ensures forall k :: 0 <= k < Volume(oldS) && cells0[k] != null ==>
      (Target(cells0, b, st, oldS, n, k) == -1 <==> !InExtent(XYZDecode(k, oldS), s))
  {
    forall k | 0 <= k < Volume(oldS) && cells0[k] != null
      ensures Target(cells0, b, st, oldS, n, k) == -1 <==> !InExtent(XYZDecode(k, oldS), s)
    {
      var c := XYZDecode(k, oldS);
      assert b.Clamp(c) == c;
    }
  }

  /** With XYZ strides and a brain that keeps the extent, Fill's reads and
      Add's writes all fall inside an array of Volume(s) cells. */
  lemma FillFitsXYZ(b: DefaultBrain, s: ByteTrio)
    requires ClampKeepsExtent(b, s)
    ensures FillFits(b, StridesOf(XYZ, s), s, Volume(s))
  {
    forall c | InExtent(c, s)
      ensures 0 <= LinearIndex(c, StridesOf(XYZ, s)) < Volume(s) && b.ClampDefined(c.x, c.y, c.z)
        && IndexOfWith(b, StridesOf(XYZ, s), c) < Volume(s)
    {
      IndexOfIsXYZ(b, s, c);
    }
  }

  /** A cell of the old extent reached by the walk at (x, y, z): the next
      XYZ index is that of (x + 1, y, z), and the end of a line or of a
      plane is the start of the next one. */
  lemma WalkStep(x: int, y: int, z: int, s: ByteTrio)
    ensures XYZIndex(ByteTrio(x, y, z), s) + 1 == XYZIndex(ByteTrio(x + 1, y, z), s)
    ensures XYZIndex(ByteTrio(s.x, y, z), s) == XYZIndex(ByteTrio(0, y + 1, z), s)
    ensures XYZIndex(ByteTrio(0, s.y, z), s) == XYZIndex(ByteTrio(0, 0, z + 1), s)
    ensures XYZIndex(ByteTrio(0, 0, s.z), s) == Volume(s)
  {
    assert s.x * (y + 1) == s.x * y + s.x;
    assert (s.y * s.x) * (z + 1) == (s.y * s.x) * z + s.y * s.x;
    assert s.x * s.y == s.y * s.x;
  }

  class SlotClusterFixed {
    /** m_brain */
    var brain: DefaultBrain
    /** m_slotModel */
    var slotModel: SlotModel?
    /** m_size */
    var size: ByteTrio
    /** m_slotList: null until the first resize allocates it. */
    var slotList: array?<Slot?>
    /** m_planeOrder */
    var planeOrder: AxisOrder
    /** m_lineLength, m_planeLength */
    var lineLength: int
    var planeLength: int
    /** The slots handed back to the pool. */
    ghost var released: set<Slot>

    /** The array covers the extent once allocated, and is only missing
        while the extent is still zero. */
    ghost predicate Valid()
      reads this
    {
      IsExtent(size) && lineLength >= 0 && planeLength >= 0
      && (slotList == null ==> size == Zero)
      && (slotList != null ==> Volume(size) <= slotList.Length)
    }

    function St(): Strides
      reads this
    {
      Strides(lineLength, planeLength)
    }

    /** The slots currently stored. */
    ghost function Occupants(): set<Slot>
      reads this, slotList
    {
      if slotList == null then {} else CellSet(slotList[..])
    }

    /** The slot stored in cell i, as a frame. */
    ghost function OccupantAt(i: int): set<Slot>
      reads this, slotList
    {
      if slotList != null && 0 <= i < slotList.Length && slotList[i] != null then {slotList[i]} else {}
    }

    /** A new cluster: zero extent, no array, XYZ order, zero strides. */
    constructor ()
      ensures Valid()
      ensures brain == DefaultBrain(WrapMode.None, WrapMode.None, WrapMode.None, Zero) && slotModel == null
      ensures size == Zero && slotList == null && planeOrder == XYZ
      ensures lineLength == 0 && planeLength == 0 && released == {}
    {
      brain := DefaultBrain(WrapMode.None, WrapMode.None, WrapMode.None, Zero);
      slotModel := null;
      size := Zero;
      slotList := null;
      planeOrder := XYZ;
      lineLength := 0;
      planeLength := 0;
      released := {};
    }

    /** Count: the length of the array, whatever the extent. */
    function Count(): (r: int)
      reads this
      requires slotList != null
      ensures r == slotList.Length
    {
      slotList.Length
    }

    /** Capacity: the volume of the extent, the number of coordinates it
        holds. */
    function Capacity(): (r: int)
      reads this
      ensures IsExtent(size) ==> r == |ExtentCoords(size)|
    {
      if IsExtent(size) then VolumeCountsCoords(size); Volume(size) else Volume(size)
    }

    /** The planeOrder setter: stores the order and derives the strides of
        the current extent from it. */
    method SetPlaneOrder(order: AxisOrder)
      requires IsExtent(size)
      modifies this`planeOrder, this`lineLength, this`planeLength
      ensures lineLength >= 0 && planeLength >= 0
      ensures planeOrder == order && St() == StridesOf(order, size)
    {
      planeOrder := order;
      match order
      case XZY =>
        lineLength := size.x;
        planeLength := size.z * lineLength;
      case YXZ =>
        lineLength := size.y;
        planeLength := size.x * lineLength;
      case YZX =>
        lineLength := size.y;
        planeLength := size.z * lineLength;
      case ZXY =>
        lineLength := size.z;
        planeLength := size.x * lineLength;
      case ZYX =>
        lineLength := size.z;
        planeLength := size.y * lineLength;
      case XYZ =>
        lineLength := size.x;
        planeLength := size.y * lineLength;
    }

    /** IndexOf: -1 for a coordinate the brain does not contain once
        clamped, otherwise the x-fastest formula on the clamped coordinate,
        with the strides of whatever order is set. */
    function IndexOf(coord: ByteTrio): (r: int)
      reads this
      requires brain.ClampDefined(coord.x, coord.y, coord.z)
      ensures lineLength >= 0 && planeLength >= 0 ==> (r == -1 <==> !brain.Contains(brain.Clamp(coord)))
      ensures r != -1 ==> r == LinearIndex(brain.Clamp(coord), St())
      ensures lineLength >= 0 && planeLength >= 0 ==> r >= -1
    {
      IndexOfWith(brain, St(), coord)
    }

    /** Remove: empties the coordinate's cell and returns its former
        occupant, possibly null. The occupant keeps its back-reference. */
    method Remove(coord: ByteTrio) returns (r: Slot?)
      requires Valid()
      requires brain.ClampDefined(coord.x, coord.y, coord.z)
      requires IndexOf(coord) != -1 ==> slotList != null && IndexOf(coord) < slotList.Length
      modifies slotList
      ensures IndexOf(coord) == -1 ==> r == null
      ensures slotList != null ==> slotList[..] == Vacate(old(slotList[..]), IndexOf(coord))
      ensures IndexOf(coord) != -1 ==> r == old(slotList[IndexOf(coord)])
    {
      var index := IndexOf(coord);
      if index == -1 {
        return null;
      }
      r := slotList[index];
      slotList[index] := null;
    }

    /** Add: a full cell returns its occupant; an empty one receives a new
        slot placed at the (unclamped) coordinate and owned by this cluster. */
    method Add(coord: ByteTrio) returns (r: Slot?)
      requires Valid()
      requires brain.ClampDefined(coord.x, coord.y, coord.z)
      requires IndexOf(coord) != -1 ==> slotList != null && IndexOf(coord) < slotList.Length
      modifies slotList
      ensures IndexOf(coord) == -1 ==> r == null && (slotList != null ==> slotList[..] == old(slotList[..]))
      ensures IndexOf(coord) != -1 && old(slotList[IndexOf(coord)]) != null ==>
        r == old(slotList[IndexOf(coord)]) && slotList[..] == old(slotList[..])
      ensures IndexOf(coord) != -1 && old(slotList[IndexOf(coord)]) == null ==>
        r != null && fresh(r) && r.coordinates == coord && r.cluster == this
        && slotList[..] == old(slotList[..])[IndexOf(coord) := r]
    {
      var index := IndexOf(coord);
      if index == -1 {
        return null;
      }
      r := slotList[index];
      if r != null {
        return r;
      }
      var slot := new Slot();
      slot.coordinates := coord;
      slotList[index] := slot;
      OnSlotAdded(this, slot);
      r := slot;
    }

    /** Set: places slot at coord (unclamped coordinates stored on the
        slot). A slot of this cluster already at coord is returned as is; one
        elsewhere in this cluster is first removed from its old cell; a
        different occupant of the target cell is evicted, detached and, on
        request, released. */
    method Set(coord: ByteTrio, slot: Slot, releaseExisting: bool) returns (r: Slot?)
      requires Valid()
      requires brain.ClampDefined(coord.x, coord.y, coord.z)
      requires IndexOf(coord) != -1 ==> slotList != null && IndexOf(coord) < slotList.Length
      requires IndexOf(coord) != -1 && slot.cluster == this && slot.coordinates != coord ==>
        brain.ClampDefined(slot.coordinates.x, slot.coordinates.y, slot.coordinates.z)
        && (IndexOf(slot.coordinates) != -1 ==> IndexOf(slot.coordinates) < slotList.Length)
      modifies slotList, slot, OccupantAt(IndexOf(coord))`cluster, this`released
      ensures IndexOf(coord) == -1 ==> (r == null
        && (slotList != null ==> slotList[..] == old(slotList[..]))
        && slot.cluster == old(slot.cluster) && slot.coordinates == old(slot.coordinates)
        && released == old(released))
      ensures IndexOf(coord) != -1 ==> r == slot
      ensures IndexOf(coord) != -1 && old(slot.cluster) == this && old(slot.coordinates) == coord ==>
        slotList[..] == old(slotList[..]) && released == old(released)
        && slot.coordinates == coord && slot.cluster == old(slot.cluster)
      ensures IndexOf(coord) != -1 && !(old(slot.cluster) == this && old(slot.coordinates) == coord) ==>
        var mid := Vacate(old(slotList[..]), if old(slot.cluster) == this then IndexOf(old(slot.coordinates)) else -1);
        var existing := mid[IndexOf(coord)];
        if existing == slot then
          slotList[..] == mid && released == old(released)
          && slot.cluster == old(slot.cluster) && slot.coordinates == old(slot.coordinates)
        else
          slotList[..] == mid[IndexOf(coord) := slot]
          && slot.coordinates == coord && slot.cluster == this
          && (existing != null ==> existing.cluster == Detached(this, old(existing.cluster))
                                   && existing.coordinates == old(existing.coordinates))
          && released == old(released) + (if existing != null && releaseExisting then {existing} else {})
    {
      var index := IndexOf(coord);
      if index == -1 {
        return null;
      }
      if slot.cluster == this {
        if slot.coordinates == coord {
          return slot;
        }
        var _ := Remove(slot.coordinates);
      }
      var existing := slotList[index];
      if existing != null {
        if existing == slot {
          return slot;
        }
        slotList[index] := null;
        OnSlotRemoved(this, existing);
        if releaseExisting {
          released := released + {existing};
        }
      }
      slot.coordinates := coord;
      slotList[index] := slot;
      OnSlotAdded(this, slot);
      r := slot;
    }

    /** TryGet(ByteTrio): the occupant of the clamped coordinate's cell,
        failing for a coordinate that is not contained, lies past the end of
        the array, or whose cell is empty. */
    method TryGet(coord: ByteTrio) returns (found: bool, slot: Slot?)
      requires Valid()
      requires brain.ClampDefined(coord.x, coord.y, coord.z)
      requires IndexOf(coord) != -1 ==> slotList != null
      ensures IndexOf(coord) == -1 || IndexOf(coord) >= slotList.Length ==> !found && slot == null
      ensures IndexOf(coord) != -1 && IndexOf(coord) < slotList.Length ==>
        slot == slotList[IndexOf(coord)] && (found <==> slot != null)
    {
      var index := IndexOf(coord);
      if index == -1 || index >= slotList.Length {
        return false, null;
      }
      slot := slotList[index];
      found := slot != null;
    }

    /** TryGet(int, int, int): the same lookup without the check against
        the end of the array. */
    method TryGetAt(x: int, y: int, z: int) returns (found: bool, slot: Slot?)
      requires Valid()
      requires brain.ClampDefined(x, y, z)
      requires IndexOf(ByteTrio(x, y, z)) != -1 ==> slotList != null && IndexOf(ByteTrio(x, y, z)) < slotList.Length
      ensures IndexOf(ByteTrio(x, y, z)) == -1 ==> !found && slot == null
      ensures IndexOf(ByteTrio(x, y, z)) != -1 ==>
        slot == slotList[IndexOf(ByteTrio(x, y, z))] && (found <==> slot != null)
    {
      var index := IndexOf(ByteTrio(x, y, z));
      if index == -1 {
        return false, null;
      }
      slot := slotList[index];
      found := slot != null;
    }

    /** TryGet(float3): the brain's mapping of the location to a coordinate
        is given as its result, located; the lookup succeeds only when a
        coordinate was found and TryGet finds a slot there. */
    method TryGetLocation(located: Option<ByteTrio>) returns (found: bool, slot: Slot?)
      requires Valid()
      requires located.Some? ==> brain.ClampDefined(located.value.x, located.value.y, located.value.z)
      requires located.Some? && IndexOf(located.value) != -1 ==> slotList != null
      ensures found <==> (located.Some? && IndexOf(located.value) != -1
        && IndexOf(located.value) < slotList.Length && slotList[IndexOf(located.value)] != null)
      ensures found ==> slot == slotList[IndexOf(located.value)]
      ensures !found ==> slot == null
    {
      if located.Some? {
        found, slot := TryGet(located.value);
        if found {
          return;
        }
      }
      found, slot := false, null;
    }

    /** Fill: walks the extent z, then y, then x, reads the cell
        x + line * y + plane * z and, when it is empty, adds a slot at
        (x, y, z) through Add, which files it under IndexOf. Occupied cells
        are kept; each new cell holds a new slot of this cluster whose
        coordinate is filed there; every coordinate whose IndexOf is the
        formula Fill reads ends up occupied, which is every in-extent
        coordinate when the brain keeps the extent. */
    method Fill()
      requires Valid() && slotModel != null
      requires slotList != null ==> FillFits(brain, St(), size, slotList.Length)
      modifies slotList
      ensures slotList != null ==> FillFits(brain, St(), size, slotList.Length)
      ensures slotList != null ==>
        forall j :: 0 <= j < slotList.Length && old(slotList[j]) != null ==> slotList[j] == old(slotList[j])
      ensures slotList != null ==>
        forall j :: 0 <= j < slotList.Length && slotList[j] != old(slotList[j]) ==>
          slotList[j] != null && fresh(slotList[j]) && slotList[j].cluster == this
          && InExtent(slotList[j].coordinates, size) && IndexOf(slotList[j].coordinates) == j
      ensures slotList != null ==>
        forall c :: InExtent(c, size) && IndexOf(c) == LinearIndex(c, St()) ==> slotList[LinearIndex(c, St())] != null
      ensures slotList != null && ClampKeepsExtent(brain, size) ==>
        forall c :: InExtent(c, size) ==> slotList[LinearIndex(c, St())] != null
    {
      if slotList == null {
        return;
      }
      var n := slotList.Length;
      var z := 0;
      while z < size.z
        invariant 0 <= z <= size.z
        invariant FillKeeps(old(slotList[..]), slotList[..])
        invariant forall j :: 0 <= j < n && slotList[j] != old(slotList[j]) ==> fresh(slotList[j])
        invariant FilledBefore(slotList[..], 0, 0, z)
      {
        var y := 0;
        while y < size.y
          invariant 0 <= y <= size.y
          invariant FillKeeps(old(slotList[..]), slotList[..])
          invariant forall j :: 0 <= j < n && slotList[j] != old(slotList[j]) ==> fresh(slotList[j])
          invariant FilledBefore(slotList[..], 0, y, z)
        {
          var x := 0;
          while x < size.x
            invariant 0 <= x <= size.x
            invariant FillKeeps(old(slotList[..]), slotList[..])
            invariant forall j :: 0 <= j < n && slotList[j] != old(slotList[j]) ==> fresh(slotList[j])
            invariant FilledBefore(slotList[..], x, y, z)
          {
            FillCell(ByteTrio(x, y, z), old(slotList[..]));
            x := x + 1;
          }
          y := y + 1;
        }
        z := z + 1;
      }
      if ClampKeepsExtent(brain, size) {
        forall c | InExtent(c, size)
          ensures IndexOf(c) == LinearIndex(c, St())
        {
          IndexOfIsFillIndex(brain, St(), c);
        }
      }
    }

    /** One step of Fill at the in-extent coordinate c. */
    method FillCell(c: ByteTrio, ghost orig: seq<Slot?>)
      requires Valid() && slotList != null && FillFits(brain, St(), size, slotList.Length)
      requires InExtent(c, size)
      requires FillKeeps(orig, slotList[..])
      requires FilledBefore(slotList[..], c.x, c.y, c.z)
      modifies slotList
      ensures FillKeeps(orig, slotList[..])
      ensures forall j :: 0 <= j < slotList.Length && slotList[j] != old(slotList[j]) ==> fresh(slotList[j])
      ensures FilledBefore(slotList[..], c.x + 1, c.y, c.z)
    {
      var index := c.x + lineLength * c.y + planeLength * c.z;
      assert index == LinearIndex(c, St());
      var slot := slotList[index];
      if slot == null {
        ghost var before := slotList[..];
        ghost var i := IndexOf(c);
        var r := Add(c);
        if i != -1 && before[i] == null {
          FillStepKeeps(orig, before, slotList[..], i, c);
        } else {
          assert slotList[..] == before;
          FillStepSkips(before, c);
        }
      } else {
        FillStepSkips(slotList[..], c);
      }
    }

    /** Filling the empty cell i with a slot of this cluster filed at i
        keeps FillKeeps and FilledBefore. */
    lemma FillStepKeeps(orig: seq<Slot?>, before: seq<Slot?>, after: seq<Slot?>, i: int, c: ByteTrio)
      requires Valid() && slotList != null && FillFits(brain, St(), size, slotList.Length)
      requires InExtent(c, size) && i == IndexOf(c)
      requires FillKeeps(orig, before)
      requires FilledBefore(before, c.x, c.y, c.z)
      requires 0 <= i < |before| && before[i] == null && |after| == |before| && after == before[i := after[i]]
      requires after[i] != null && after[i].cluster == this && after[i].coordinates == c
      ensures FillKeeps(orig, after)
      ensures FilledBefore(after, c.x + 1, c.y, c.z)
    {
      forall j | 0 <= j < |after| && after[j] != orig[j]
        ensures after[j] != null && after[j].cluster == this
          && InExtent(after[j].coordinates, size) && IndexOf(after[j].coordinates) == j
      {
        if j != i {
          assert after[j] == before[j];
        }
      }
      forall c' | InExtent(c', size) && WalkedBefore(c', c.x + 1, c.y, c.z) && IndexOf(c') == LinearIndex(c', St())
        ensures after[LinearIndex(c', St())] != null
      {
        if c' != c {
          assert WalkedBefore(c', c.x, c.y, c.z);
        }
      }
    }

    /** Passing over a coordinate whose IndexOf is not the cell Fill reads
        keeps FilledBefore. */
    lemma FillStepSkips(cells: seq<Slot?>, c: ByteTrio)
      requires Valid() && slotList != null && FillFits(brain, St(), size, slotList.Length)
      requires InExtent(c, size) && |cells| == slotList.Length
      requires FilledBefore(cells, c.x, c.y, c.z)
      requires IndexOf(c) == LinearIndex(c, St()) ==> cells[LinearIndex(c, St())] != null
      ensures FilledBefore(cells, c.x + 1, c.y, c.z)
    {
      forall c' | InExtent(c', size) && WalkedBefore(c', c.x + 1, c.y, c.z) && IndexOf(c') == LinearIndex(c', St())
        ensures cells[LinearIndex(c', St())] != null
      {
        if c' != c {
          assert WalkedBefore(c', c.x, c.y, c.z);
        }
      }
    }

    /** Cells that held a slot keep it; a cell that changed holds a slot of
        this cluster whose coordinate IndexOf files there. */
    ghost predicate FillKeeps(before: seq<Slot?>, after: seq<Slot?>)
      reads this, set j | 0 <= j < |after| && after[j] != null :: after[j]
      requires slotList != null && FillFits(brain, St(), size, slotList.Length)
    {
      |after| == |before| == slotList.Length
      && (forall j :: 0 <= j < |before| && before[j] != null ==> after[j] == before[j])
      && (forall j :: 0 <= j < |after| && after[j] != before[j] ==>
            after[j] != null && after[j].cluster == this
            && InExtent(after[j].coordinates, size) && IndexOf(after[j].coordinates) == j)
    }

    /** Every coordinate walked before (x, y, z) whose IndexOf is the cell
        Fill reads has that cell occupied. */
    ghost predicate FilledBefore(cells: seq<Slot?>, x: int, y: int, z: int)
      reads this
      requires slotList != null && FillFits(brain, St(), size, slotList.Length) && |cells| == slotList.Length
    {
      forall c :: InExtent(c, size) && WalkedBefore(c, x, y, z) && IndexOf(c) == LinearIndex(c, St()) ==>
        cells[LinearIndex(c, St())] != null
    }

    /** Clear: empties every cell of the array (which is kept), detaches
        each occupant from this cluster and, on request, releases it. */
    method Clear(release: bool)
      modifies slotList, Occupants()`cluster, this`released
      ensures slotList != null ==> forall j :: 0 <= j < slotList.Length ==> slotList[j] == null
      ensures Occupants() == {}
      ensures forall s :: s in old(Occupants()) ==>
        s.cluster == Detached(this, old(s.cluster)) && s.coordinates == old(s.coordinates)
      ensures released == old(released) + (if release then old(Occupants()) else {})
    {
      if slotList == null {
        return;
      }
      var i := 0;
      while i < slotList.Length
        invariant 0 <= i <= slotList.Length
        invariant forall j :: 0 <= j < i ==> slotList[j] == null
        invariant forall j :: i <= j < slotList.Length ==> slotList[j] == old(slotList[j])
        invariant forall s :: s in old(Occupants()) ==> s.coordinates == old(s.coordinates)
        invariant forall s :: s in old(Occupants()) ==>
          s.cluster == (if s in CellSet(old(slotList[..])[..i]) then Detached(this, old(s.cluster)) else old(s.cluster))
        invariant released == old(released) + (if release then CellSet(old(slotList[..])[..i]) else {})
      {
        var slot := slotList[i];
        CellSetStep(old(slotList[..]), i);
        if slot != null {
          slotList[i] := null;
          OnSlotRemoved(this, slot);
          if release {
            released := released + {slot};
          }
        }
        i := i + 1;
      }
      assert old(slotList[..])[..i] == old(slotList[..]);
      assert forall j :: 0 <= j < slotList.Length ==> slotList[..][j] == null;
    }

    /** OnSizeChanged, run by the size setter once the size and the brain's
        clusterSize hold the new extent: re-derives the strides, then
        allocates the first array, keeps the array when the size did not
        change, or walks the old extent moving each occupant to its new
        IndexOf, detaching and releasing the ones that pop out. Returns the
        size difference. */
    method OnSizeChanged(oldSize: ByteTrio) returns (d: Int3)
      requires IsExtent(size) && IsExtent(oldSize) && lineLength >= 0 && planeLength >= 0
      requires slotList != null ==> Volume(oldSize) <= slotList.Length
      requires slotList != null && size != oldSize ==>
        MigrationFits(brain, StridesOf(planeOrder, size), oldSize, Volume(size), slotList[..])
      modifies this`slotList, this`lineLength, this`planeLength, this`planeOrder, Occupants()`cluster, this`released
      ensures Valid() && slotList != null
      ensures d == SizeDiff(size, oldSize)
      ensures planeOrder == old(planeOrder) && St() == StridesOf(planeOrder, size)
      ensures old(slotList) == null ==>
        fresh(slotList) && slotList.Length == Volume(size)
        && (forall j :: 0 <= j < slotList.Length ==> slotList[j] == null) && released == old(released)
      ensures old(slotList) != null && size == oldSize ==>
        slotList == old(slotList) && slotList[..] == old(slotList[..]) && released == old(released)
      ensures brain == old(brain) && size == old(size)
      ensures old(slotList) != null && size != oldSize ==>
        MigrationFits(brain, St(), oldSize, Volume(size), old(slotList[..]))
      ensures old(slotList) != null && size != oldSize ==>
        fresh(slotList)
        && slotList[..] == Migrated(old(slotList[..]), brain, St(), oldSize, Volume(size), Volume(oldSize))
        && released == old(released) + Evicted(old(slotList[..]), brain, St(), oldSize, Volume(size), Volume(oldSize))
      ensures forall s :: s in old(Occupants()) ==> s.coordinates == old(s.coordinates)
      ensures forall s :: s in old(Occupants()) ==>
        s.cluster == (if old(slotList) != null && size != oldSize
                         && s in Evicted(old(slotList[..]), brain, St(), oldSize, Volume(size), Volume(oldSize))
                      then Detached(this, old(s.cluster)) else old(s.cluster))
    {
      SetPlaneOrder(planeOrder);
      d := SizeDiff(size, oldSize);
      var newVolume := Volume(size);
      if slotList == null {
        slotList := new Slot?[newVolume](_ => null);
        return;
      }
      SizeDiffZeroIff(size, oldSize);
      if d.x == 0 && d.y == 0 && d.z == 0 {
        return;
      }
      var oldList := slotList;
      assert oldList[..] == old(slotList[..]) && old(Occupants()) == CellSet(oldList[..]);
      slotList := new Slot?[newVolume](_ => null);
      MoveOccupants(oldList, oldSize);
      assert oldList[..] == old(slotList[..]);
    }

    /** The walk of OnSizeChanged over the old extent, z, then y, then x,
        reading the old array at the XYZ index of the old extent and filling
        the freshly allocated slotList. */
    method MoveOccupants(oldList: array<Slot?>, oldSize: ByteTrio)
      requires slotList != null && oldList != slotList
      requires forall j :: 0 <= j < slotList.Length ==> slotList[j] == null
      requires IsExtent(oldSize) && Volume(oldSize) <= oldList.Length
      requires MigrationFits(brain, St(), oldSize, slotList.Length, oldList[..])
      modifies slotList, this`released, CellSet(oldList[..])`cluster
      ensures slotList[..] == Migrated(oldList[..], brain, St(), oldSize, slotList.Length, Volume(oldSize))
      ensures released == old(released) + Evicted(oldList[..], brain, St(), oldSize, slotList.Length, Volume(oldSize))
      ensures forall s :: s in CellSet(oldList[..]) ==> s.coordinates == old(s.coordinates)
      ensures forall s :: s in CellSet(oldList[..]) ==>
        s.cluster == (if s in Evicted(oldList[..], brain, St(), oldSize, slotList.Length, Volume(oldSize))
                      then Detached(this, old(s.cluster)) else old(s.cluster))
    {
      ghost var cells0 := oldList[..];
      ghost var n := slotList.Length;
      ghost var clusters0 := map s | s in CellSet(cells0) :: s.cluster;
      assert slotList[..] == Migrated(cells0, brain, St(), oldSize, n, 0);
      assert XYZIndex(ByteTrio(0, 0, 0), oldSize) == 0;
      MoveWalk(oldList, oldSize, cells0, n, old(released), clusters0);
    }

    /** The two outer loops of OnSizeChanged's walk: z, then y, each line
        handed to MoveLine. */
    method MoveWalk(oldList: array<Slot?>, oldSize: ByteTrio, ghost cells0: seq<Slot?>,
                    ghost n: int, ghost released0: set<Slot>, ghost clusters0: map<Slot, object?>)
      requires slotList != null && oldList[..] == cells0 && oldList != slotList
      requires MigratedTo(cells0, oldSize, n, XYZIndex(ByteTrio(0, 0, 0), oldSize), released0, clusters0)
      modifies slotList, this`released, clusters0.Keys`cluster
      ensures MigratedTo(cells0, oldSize, n, Volume(oldSize), released0, clusters0)
    {
      var sizeX, sizeY, sizeZ := oldSize.x, oldSize.y, oldSize.z;
      var z := 0;
      while z < sizeZ
        invariant 0 <= z <= sizeZ
        invariant oldList[..] == cells0
        invariant MigratedTo(cells0, oldSize, n, XYZIndex(ByteTrio(0, 0, z), oldSize), released0, clusters0)
      {
        var y := 0;
        while y < sizeY
          invariant 0 <= y <= sizeY
          invariant oldList[..] == cells0
          invariant MigratedTo(cells0, oldSize, n, XYZIndex(ByteTrio(0, y, z), oldSize), released0, clusters0)
        {
          MoveLine(oldList, oldSize, y, z, cells0, n, released0, clusters0);
          y := y + 1;
        }
        WalkStep(0, y, z, oldSize);
        z := z + 1;
      }
      WalkStep(0, 0, z, oldSize);
    }

    /** The innermost loop of OnSizeChanged's walk: the old line (_, y, z),
        x running from 0 to the old size.x. */
    method MoveLine(oldList: array<Slot?>, oldSize: ByteTrio, y: int, z: int, ghost cells0: seq<Slot?>,
                    ghost n: int, ghost released0: set<Slot>, ghost clusters0: map<Slot, object?>)
      requires slotList != null && oldList[..] == cells0 && oldList != slotList
      requires 0 <= y < oldSize.y && 0 <= z < oldSize.z
      requires MigratedTo(cells0, oldSize, n, XYZIndex(ByteTrio(0, y, z), oldSize), released0, clusters0)
      modifies slotList, this`released, clusters0.Keys`cluster
      ensures oldList[..] == cells0
      ensures MigratedTo(cells0, oldSize, n, XYZIndex(ByteTrio(0, y + 1, z), oldSize), released0, clusters0)
    {
      var x := 0;
      while x < oldSize.x
        invariant 0 <= x <= oldSize.x
        invariant oldList[..] == cells0
        invariant MigratedTo(cells0, oldSize, n, XYZIndex(ByteTrio(x, y, z), oldSize), released0, clusters0)
      {
        MoveCell(oldList, oldSize, ByteTrio(x, y, z), cells0, XYZIndex(ByteTrio(x, y, z), oldSize), released0, clusters0);
        WalkStep(x, y, z, oldSize);
        x := x + 1;
      }
      WalkStep(x, y, z, oldSize);
    }

    /** The state of OnSizeChanged's walk once the old cells 0 .. t-1 are
        visited; clusters0 holds the back-references the occupants had. */
    ghost predicate MigratedTo(cells0: seq<Slot?>, oldSize: ByteTrio, n: int, t: int,
                               released0: set<Slot>, clusters0: map<Slot, object?>)
      reads this, slotList, clusters0.Keys
    {
      MigrationFits(brain, St(), oldSize, n, cells0)
      && 0 <= t <= Volume(oldSize) <= |cells0|
      && slotList != null && slotList.Length == n
      && slotList[..] == Migrated(cells0, brain, St(), oldSize, n, t)
      && released == released0 + Evicted(cells0, brain, St(), oldSize, n, t)
      && CellSet(cells0) == clusters0.Keys
      && forall s :: s in clusters0 ==>
           s.cluster == (if s in Evicted(cells0, brain, St(), oldSize, n, t) then Detached(this, clusters0[s]) else clusters0[s])
    }

    /** One step of OnSizeChanged's walk, at the old coordinate c: an
        occupant either moves to its IndexOf in the new array or pops out,
        detached and released. */
    method MoveCell(oldList: array<Slot?>, oldSize: ByteTrio, c: ByteTrio, ghost cells0: seq<Slot?>,
                    ghost t: int, ghost released0: set<Slot>, ghost clusters0: map<Slot, object?>)
      requires slotList != null && oldList[..] == cells0 && oldList != slotList && InExtent(c, oldSize)
      requires t == XYZIndex(c, oldSize)
      requires MigratedTo(cells0, oldSize, slotList.Length, t, released0, clusters0)
      modifies slotList, this`released, clusters0.Keys`cluster
      ensures MigratedTo(cells0, oldSize, slotList.Length, t + 1, released0, clusters0)
    {
      DecodeIndex(c, oldSize);
      var oldLineLength := oldSize.x;
      var oldPlaneLength := oldSize.y * oldLineLength;
      var oldSlot := oldList[c.x + oldLineLength * c.y + oldPlaneLength * c.z];
      if oldSlot != null {
        assert oldSlot in CellSet(cells0);
        var index := IndexOf(c);
        assert index == Target(cells0, brain, St(), oldSize, slotList.Length, t);
        if index == -1 {
          OnSlotRemoved(this, oldSlot);
          released := released + {oldSlot};
        } else {
          slotList[index] := oldSlot;
        }
      }
    }

    /** The size setter: nothing happens when the size is unchanged;
        otherwise the size and the brain's clusterSize take the new value and
        OnSizeChanged resizes the array. */
    method SetSize(value: ByteTrio)
      requires Valid() && IsExtent(value)
      requires slotList != null && value != size ==>
        MigrationFits(brain.WithClusterSize(value), StridesOf(planeOrder, value), size, Volume(value), slotList[..])
      modifies this, Occupants()
      ensures Valid() && size == value
      ensures planeOrder == old(planeOrder) && slotModel == old(slotModel)
      ensures value == old(size) ==>
        brain == old(brain) && slotList == old(slotList) && St() == old(St()) && released == old(released)
        && (slotList != null ==> slotList[..] == old(slotList[..]))
      ensures value != old(size) ==>
        brain == old(brain).WithClusterSize(value) && St() == StridesOf(planeOrder, value)
        && slotList != null && fresh(slotList) && slotList.Length == Volume(value)
      ensures value != old(size) && old(slotList) == null ==>
        (forall j :: 0 <= j < slotList.Length ==> slotList[j] == null) && released == old(released)
      ensures value != old(size) && old(slotList) != null ==>
        MigrationFits(brain, St(), old(size), Volume(value), old(slotList[..]))
        && slotList[..] == Migrated(old(slotList[..]), brain, St(), old(size), Volume(value), Volume(old(size)))
        && released == old(released) + Evicted(old(slotList[..]), brain, St(), old(size), Volume(value), Volume(old(size)))
      ensures forall s :: s in old(Occupants()) ==> s.coordinates == old(s.coordinates)
      ensures forall s :: s in old(Occupants()) ==>
        s.cluster == (if value != old(size) && old(slotList) != null
                         && s in Evicted(old(slotList[..]), brain, St(), old(size), Volume(value), Volume(old(size)))
                      then Detached(this, old(s.cluster)) else old(s.cluster))
    {
      if size == value {
        return;
      }
      var oldSize := size;
      size := value;
      brain := brain.WithClusterSize(value);
      var _ := OnSizeChanged(oldSize);
    }

    /** SetBrain: stores the brain (whose slotModel setter dereferences the
        cluster's model) and assigns its clusterSize through the size
        setter. */
    method SetBrain(b: DefaultBrain)
      requires Valid() && slotModel != null && IsExtent(b.clusterSize)
      requires slotList != null && b.clusterSize != size ==>
        MigrationFits(b, StridesOf(planeOrder, b.clusterSize), size, Volume(b.clusterSize), slotList[..])
      modifies this, Occupants()
      ensures Valid() && brain == b && size == b.clusterSize
      ensures planeOrder == old(planeOrder) && slotModel == old(slotModel)
      ensures b.clusterSize == old(size) ==>
        slotList == old(slotList) && St() == old(St()) && released == old(released)
        && (slotList != null ==> slotList[..] == old(slotList[..]))
      ensures b.clusterSize != old(size) ==>
        St() == StridesOf(planeOrder, size) && slotList != null && fresh(slotList) && slotList.Length == Volume(size)
      ensures b.clusterSize != old(size) && old(slotList) == null ==>
        (forall j :: 0 <= j < slotList.Length ==> slotList[j] == null) && released == old(released)
      ensures b.clusterSize != old(size) && old(slotList) != null ==>
        MigrationFits(b, St(), old(size), Volume(size), old(slotList[..]))
        && slotList[..] == Migrated(old(slotList[..]), b, St(), old(size), Volume(size), Volume(old(size)))
        && released == old(released) + Evicted(old(slotList[..]), b, St(), old(size), Volume(size), Volume(old(size)))
      ensures forall s :: s in old(Occupants()) ==> s.coordinates == old(s.coordinates)
      ensures forall s :: s in old(Occupants()) ==>
        s.cluster == (if b.clusterSize != old(size) && old(slotList) != null
                         && s in Evicted(old(slotList[..]), b, St(), old(size), Volume(size), Volume(old(size)))
                      then Detached(this, old(s.cluster)) else old(s.cluster))
    {
      brain := b;
      assert b.WithClusterSize(b.clusterSize) == b;
      SetSize(b.clusterSize);
    }

    /** The state Init leaves: the model, brain, order and strides it was
        given, and either an array of empty cells or, after Fill, cells each
        holding a slot of this cluster filed there, with every coordinate
        whose IndexOf is the formula Fill reads occupied. */
    ghost predicate Initialised(model: SlotModel?, b: DefaultBrain, fill: bool, order: AxisOrder)
      reads this, slotList, Occupants()
    {
      Valid() && slotModel == model && brain == b && size == b.clusterSize
      && planeOrder == order && St() == StridesOf(order, size)
      && (slotList != null && !fill ==> forall j :: 0 <= j < slotList.Length ==> slotList[j] == null)
      && (slotList != null && fill ==>
            FillFits(brain, St(), size, slotList.Length)
            && (forall j :: 0 <= j < slotList.Length && slotList[j] != null ==>
                  slotList[j].cluster == this && InExtent(slotList[j].coordinates, size)
                  && IndexOf(slotList[j].coordinates) == j)
            && (forall c :: InExtent(c, size) && IndexOf(c) == LinearIndex(c, St()) ==>
                  slotList[LinearIndex(c, St())] != null))
    }

    /** Init(model, brain, fill, order): sets the order, then runs the
        shared initialisation. */
    method Init(model: SlotModel?, b: DefaultBrain, fill: bool, order: AxisOrder)
      requires Valid() && model != null && IsExtent(b.clusterSize)
      requires fill ==> FillFits(b, StridesOf(order, b.clusterSize), b.clusterSize, Volume(b.clusterSize))
      modifies this, slotList, Occupants()
      ensures Initialised(model, b, fill, order)
      ensures slotList != null ==> forall j :: 0 <= j < slotList.Length && slotList[j] != null ==> fresh(slotList[j])
      ensures forall s :: s in old(Occupants()) ==>
        s.cluster == Detached(this, old(s.cluster)) && s.coordinates == old(s.coordinates)
      ensures released == old(released) + old(Occupants())
    {
      SetPlaneOrder(order);
      InitBrain(model, b, fill);
    }

    /** The initialisation shared by every Init overload of the base
        cluster: clears the cluster releasing its slots, stores the model,
        sets the brain and fills the cluster on request. */
    method InitBrain(model: SlotModel?, b: DefaultBrain, fill: bool)
      requires Valid() && model != null && IsExtent(b.clusterSize)
      requires St() == StridesOf(planeOrder, size)
      requires fill ==> FillFits(b, StridesOf(planeOrder, b.clusterSize), b.clusterSize, Volume(b.clusterSize))
      modifies this, slotList, Occupants()
      ensures Initialised(model, b, fill, old(planeOrder))
      ensures slotList != null ==> forall j :: 0 <= j < slotList.Length && slotList[j] != null ==> fresh(slotList[j])
      ensures forall s :: s in old(Occupants()) ==>
        s.cluster == Detached(this, old(s.cluster)) && s.coordinates == old(s.coordinates)
      ensures released == old(released) + old(Occupants())
    {
      Clear(true);
      Configure(model, b, fill);
    }

    /** The rest of the initialisation, on an emptied cluster: stores the
        model, sets the brain and fills on request. */
    method Configure(model: SlotModel?, b: DefaultBrain, fill: bool)
      requires Valid() && model != null && IsExtent(b.clusterSize)
      requires St() == StridesOf(planeOrder, size)
      requires fill ==> FillFits(b, StridesOf(planeOrder, b.clusterSize), b.clusterSize, Volume(b.clusterSize))
      requires slotList != null ==> forall j :: 0 <= j < slotList.Length ==> slotList[j] == null
      modifies this, slotList
      ensures Initialised(model, b, fill, old(planeOrder)) && released == old(released)
      ensures slotList != null ==> forall j :: 0 <= j < slotList.Length && slotList[j] != null ==> fresh(slotList[j])
    {
      slotModel := model;
      assert Occupants() == {} by {
        if slotList != null {
          assert forall s :: s in slotList[..] ==> s == null;
        }
      }
      if slotList != null && b.clusterSize != size {
        MigratedEmpty(slotList[..], b, StridesOf(planeOrder, b.clusterSize), size, Volume(b.clusterSize), Volume(size));
      }
      SetBrain(b);
      assert Valid() && slotModel == model && brain == b && size == b.clusterSize && St() == StridesOf(planeOrder, size);
      assert slotList != null ==> forall j :: 0 <= j < slotList.Length ==> slotList[j] == null;
      if fill {
        if slotList != null {
          FillFitsGrow(brain, St(), size, Volume(size), slotList.Length);
        }
        Fill();
      }
    }

    /** Init(model, size, fill, order): as Init with the current brain
        resized to the given size. */
    method InitWithSize(model: SlotModel?, clusterSize: ByteTrio, fill: bool, order: AxisOrder)
      requires Valid() && model != null && IsExtent(clusterSize)
      requires fill ==> FillFits(brain.WithClusterSize(clusterSize), StridesOf(order, clusterSize), clusterSize, Volume(clusterSize))
      modifies this, slotList, Occupants()
      ensures Initialised(model, old(brain).WithClusterSize(clusterSize), fill, order)
      ensures slotList != null ==> forall j :: 0 <= j < slotList.Length && slotList[j] != null ==> fresh(slotList[j])
      ensures forall s :: s in old(Occupants()) ==>
        s.cluster == Detached(this, old(s.cluster)) && s.coordinates == old(s.coordinates)
      ensures released == old(released) + old(Occupants())
    {
      SetPlaneOrder(order);
      InitBrain(model, brain.WithClusterSize(clusterSize), fill);
    }

    /** Init(model, size, wrapX, wrapY, wrapZ, fill, order): the brain it
        builds from the size and the wrap modes is discarded and the current
        brain is set again, so those four arguments have no effect. */
    method InitWithWraps(model: SlotModel?, clusterSize: ByteTrio, wrapX: WrapMode, wrapY: WrapMode, wrapZ: WrapMode,
                         fill: bool, order: AxisOrder)
      requires Valid() && model != null && IsExtent(brain.clusterSize)
      requires fill ==> FillFits(brain, StridesOf(order, brain.clusterSize), brain.clusterSize, Volume(brain.clusterSize))
      modifies this, slotList, Occupants()
      ensures Initialised(model, old(brain), fill, order)
      ensures slotList != null ==> forall j :: 0 <= j < slotList.Length && slotList[j] != null ==> fresh(slotList[j])
      ensures forall s :: s in old(Occupants()) ==>
        s.cluster == Detached(this, old(s.cluster)) && s.coordinates == old(s.coordinates)
      ensures released == old(released) + old(Occupants())
    {
      SetPlaneOrder(order);
      InitBrain(model, brain, fill);
    }

    /** CleanUp, run when the cluster returns to its pool: clears it without
        releasing, drops the model and zeroes the size field directly, so the
        brain, the strides and the array are kept. */
    method CleanUp()
      requires Valid()
      modifies this, slotList, Occupants()
      ensures Valid() && size == Zero && slotModel == null && Capacity() == 0
      ensures brain == old(brain) && St() == old(St()) && planeOrder == old(planeOrder)
      ensures slotList == old(slotList) && released == old(released)
      ensures slotList != null ==> Count() == old(Count()) && forall j :: 0 <= j < slotList.Length ==> slotList[j] == null
      ensures forall s :: s in old(Occupants()) ==>
        s.cluster == Detached(this, old(s.cluster)) && s.coordinates == old(s.coordinates)
    {
      Clear(false);
      slotModel := null;
      size := Zero;
    }

    /** After a filling Init with XYZ order and a brain that keeps the
        extent, every cell of the extent holds a slot of this cluster, and
        cell x + X * y + X * Y * z holds the slot of (x, y, z). */
    lemma FillCoversExtent(model: SlotModel?, b: DefaultBrain)
      requires Initialised(model, b, true, XYZ) && ClampKeepsExtent(b, b.clusterSize) && slotList != null
      ensures forall j :: 0 <= j < Volume(size) ==>
        slotList[j] != null && slotList[j].cluster == this && slotList[j].coordinates == XYZDecode(j, size)
    {
      forall j | 0 <= j < Volume(size)
        ensures slotList[j] != null && slotList[j].cluster == this && slotList[j].coordinates == XYZDecode(j, size)
      {
        var c := XYZDecode(j, size);
        XYZIndexOnto(j, size);
        IndexOfIsXYZ(b, size, c);
        assert IndexOf(c) == LinearIndex(c, St());
        var d := slotList[j].coordinates;
        IndexOfIsXYZ(b, size, d);
        DecodeIndex(d, size);
      }
    }
  }
}
