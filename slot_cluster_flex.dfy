/** SlotClusterFlex: the sparse cluster. Its slots live in a list, and a
    dictionary maps each coordinate to the slot stored there. */
module FlexClusters {

  import opened Coords
  import opened Wrapping
  import opened DefaultBrains
  import opened Slots
  import opened Clusters
  import opened FixedIndexing

  /** List.IndexOf: the position of the first occurrence of s, or -1. */
  function ListIndexOf(xs: seq<Slot>, s: Slot): (r: int)
    ensures -1 <= r < |xs|
    ensures r == -1 <==> s !in xs
    ensures r != -1 ==> xs[r] == s && s !in xs[..r]
    decreases |xs|
  {
    if |xs| == 0 then -1
    else if xs[0] == s then 0
    else
      var i := ListIndexOf(xs[1..], s);
      assert xs[1..][..(if i == -1 then 0 else i)] == xs[1..(if i == -1 then 1 else i + 1)];
      if i == -1 then -1 else i + 1
  }

  /** List.Remove: drops the first occurrence of s, if any, keeping the
      order of the rest. */
  function ListRemove(xs: seq<Slot>, s: Slot): (r: seq<Slot>)
    ensures s !in xs ==> r == xs
    ensures s in xs ==> (|r| == |xs| - 1
      && r[..ListIndexOf(xs, s)] == xs[..ListIndexOf(xs, s)]
      && r[ListIndexOf(xs, s)..] == xs[ListIndexOf(xs, s) + 1..])
    ensures multiset(r) == multiset(xs) - multiset{s}
  {
    var i := ListIndexOf(xs, s);
    if i == -1 then xs
    else
      assert xs == xs[..i] + [s] + xs[i + 1..];
      xs[..i] + xs[i + 1..]
  }

  /** List.RemoveAt. */
  function RemoveAt(xs: seq<Slot>, i: int): (r: seq<Slot>)
    requires 0 <= i < |xs|
    ensures |r| == |xs| - 1
    ensures forall j :: 0 <= j < |r| ==> r[j] == (if j < i then xs[j] else xs[j + 1])
  {
    xs[..i] + xs[i + 1..]
  }

  /** SlotIndex: a list position with the slot found there. */
  datatype SlotIndex = SlotIndex(index: int, slot: Slot)

  /** The test OnSizeChanged applies to a slot's coordinate: some component
      at or beyond the OLD size on its axis. */
  predicate BeyondOld(c: ByteTrio, oldS: ByteTrio) {
    c.x >= oldS.x || c.y >= oldS.y || c.z >= oldS.z
  }

  /** The outgoing list OnSizeChanged builds from the first n slots. */
  ghost function Outgoing(xs: seq<Slot>, oldS: ByteTrio, n: int): (r: seq<SlotIndex>)
    reads set s | s in xs
    requires 0 <= n <= |xs|
    decreases n
  {
    if n == 0 then []
    else Outgoing(xs, oldS, n - 1) + (if BeyondOld(xs[n - 1].coordinates, oldS) then [SlotIndex(n - 1, xs[n - 1])] else [])
  }

  /** Each RemoveAt of the outgoing list, applied in order to the list as
      it shrinks, has its index in range. */
  predicate RemovalsFit(xs: seq<Slot>, out: seq<SlotIndex>)
    decreases |out|
  {
    |out| == 0 || (0 <= out[0].index < |xs| && RemovalsFit(RemoveAt(xs, out[0].index), out[1..]))
  }

  /** The list after those RemoveAt calls. */
  function RemoveEach(xs: seq<Slot>, out: seq<SlotIndex>): (r: seq<Slot>)
    requires RemovalsFit(xs, out)
    ensures |r| == |xs| - |out|
    decreases |out|
  {
    if |out| == 0 then xs else RemoveEach(RemoveAt(xs, out[0].index), out[1..])
  }

  /** The slots named by an outgoing list. */
  function OutSlots(out: seq<SlotIndex>): set<Slot> {
    set o | o in out :: o.slot
  }

  /** The slots of a non-empty outgoing list: its head's and its tail's. */
  lemma OutSlotsCons(out: seq<SlotIndex>)
    requires |out| > 0
    ensures OutSlots(out) == {out[0].slot} + OutSlots(out[1..])
  {
    assert forall o :: o in out ==> o == out[0] || o in out[1..];
  }

  /** The outgoing list holds exactly the positions, in increasing order,
      of the first n slots that lie at or beyond the old size, each with
      the slot found there. */
  lemma {:induction false} OutgoingExact(xs: seq<Slot>, oldS: ByteTrio, n: int)
    requires 0 <= n <= |xs|
    ensures forall o :: o in Outgoing(xs, oldS, n) ==>
      0 <= o.index < n && o.slot == xs[o.index] && BeyondOld(o.slot.coordinates, oldS)
    ensures forall i :: 0 <= i < n && BeyondOld(xs[i].coordinates, oldS) ==> SlotIndex(i, xs[i]) in Outgoing(xs, oldS, n)
    ensures forall a, b :: 0 <= a < b < |Outgoing(xs, oldS, n)| ==>
      Outgoing(xs, oldS, n)[a].index < Outgoing(xs, oldS, n)[b].index
    ensures OutSlots(Outgoing(xs, oldS, n)) <= ListSet(xs)
    decreases n
  {
    if n > 0 {
      OutgoingExact(xs, oldS, n - 1);
    }
  }

  /** The slots of a list, as a set. */
  function ListSet(xs: seq<Slot>): set<Slot> {
    set s | s in xs
  }

  /** Some axis of the new extent is smaller than the old one's: the
      difference OnSizeChanged computes is negative somewhere. */
  predicate Shrank(newS: ByteTrio, oldS: ByteTrio) {
    newS.x < oldS.x || newS.y < oldS.y || newS.z < oldS.z
  }

  /** The whole outgoing list of a resize. */
  ghost function OutgoingOf(xs: seq<Slot>, oldS: ByteTrio): seq<SlotIndex>
    reads ListSet(xs)
  {
    Outgoing(xs, oldS, |xs|)
  }

  /** A resize runs without an index out of range: it returns early, or
      every stale RemoveAt index still lies inside the shrinking list. */
  ghost predicate ResizeFits(xs: seq<Slot>, oldS: ByteTrio, newS: ByteTrio)
    reads ListSet(xs)
  {
    |xs| == 0 || !Shrank(newS, oldS) || RemovalsFit(xs, OutgoingOf(xs, oldS))
  }

  /** The list a resize leaves. */
  ghost function Resized(xs: seq<Slot>, oldS: ByteTrio, newS: ByteTrio): (r: seq<Slot>)
    reads ListSet(xs)
    requires ResizeFits(xs, oldS, newS)
  {
    if |xs| == 0 || !Shrank(newS, oldS) then xs else RemoveEach(xs, OutgoingOf(xs, oldS))
  }

  /** The slots a resize detaches and releases. */
  ghost function ResizeEvicted(xs: seq<Slot>, oldS: ByteTrio, newS: ByteTrio): (r: set<Slot>)
    reads ListSet(xs)
  {
    if |xs| == 0 || !Shrank(newS, oldS) then {} else OutSlots(OutgoingOf(xs, oldS))
  }

  /** The resize test compares against the OLD size: when every listed
      slot lies inside the old extent, a shrink removes and releases
      nothing, however many slots fall outside the new extent. */
  lemma ResizeKeepsInsideOld(xs: seq<Slot>, oldS: ByteTrio, newS: ByteTrio)
    requires forall i :: 0 <= i < |xs| ==> InExtent(xs[i].coordinates, oldS)
    ensures ResizeFits(xs, oldS, newS)
    ensures Resized(xs, oldS, newS) == xs && ResizeEvicted(xs, oldS, newS) == {}
  {
    OutgoingExact(xs, oldS, |xs|);
  }

  /** The collected positions go stale as the list shrinks: with a and b
      outgoing ahead of c, the second RemoveAt drops c, so b stays listed
      although it is detached and released, and c is unlisted although it
      was inside the old extent. */
  lemma StaleIndicesDropWrongSlot(a: Slot, b: Slot, c: Slot, oldS: ByteTrio, newS: ByteTrio)
    requires Shrank(newS, oldS)
    requires BeyondOld(a.coordinates, oldS) && BeyondOld(b.coordinates, oldS) && !BeyondOld(c.coordinates, oldS)
    ensures ResizeFits([a, b, c], oldS, newS)
    ensures Resized([a, b, c], oldS, newS) == [b]
    ensures ResizeEvicted([a, b, c], oldS, newS) == {a, b}
  {
    var xs := [a, b, c];
    assert Outgoing(xs, oldS, 1) == [SlotIndex(0, a)];
    assert Outgoing(xs, oldS, 2) == [SlotIndex(0, a), SlotIndex(1, b)];
    assert OutgoingOf(xs, oldS) == [SlotIndex(0, a), SlotIndex(1, b)];
    RemoveFirstTwo(a, b, c);
    OutSlotsOfTwo(a, b);
  }

  /** RemoveAt(0) then RemoveAt(1) on [a, b, c] leaves [b]. */
  lemma RemoveFirstTwo(a: Slot, b: Slot, c: Slot)
    ensures RemovalsFit([a, b, c], [SlotIndex(0, a), SlotIndex(1, b)])
    ensures RemoveEach([a, b, c], [SlotIndex(0, a), SlotIndex(1, b)]) == [b]
  {
    var xs, out := [a, b, c], [SlotIndex(0, a), SlotIndex(1, b)];
    var rest := out[1..];
    RemoveAtSmall(a, b, c);
    assert rest == [SlotIndex(1, b)] && rest[0].index == 1 && rest[1..] == [];
    assert RemovalsFit([b], rest[1..]) && RemoveEach([b], rest[1..]) == [b];
    assert RemovalsFit([b, c], rest) && RemoveEach([b, c], rest) == [b];
    assert out[0].index == 0 && RemoveAt(xs, out[0].index) == [b, c];
  }

  /** The two RemoveAt calls one at a time. */
  lemma RemoveAtSmall(a: Slot, b: Slot, c: Slot)
    ensures RemoveAt([a, b, c], 0) == [b, c]
    ensures RemoveAt([b, c], 1) == [b]
  {
    var r1 := RemoveAt([a, b, c], 0);
    assert |r1| == 2 && r1[0] == b && r1[1] == c;
    var r2 := RemoveAt([b, c], 1);
    assert |r2| == 1 && r2[0] == b;
  }

  /** The slots named by those two positions. */
  lemma OutSlotsOfTwo(a: Slot, b: Slot)
    ensures OutSlots([SlotIndex(0, a), SlotIndex(1, b)]) == {a, b}
  {
    var out := [SlotIndex(0, a), SlotIndex(1, b)];
    assert out[0] in out && out[1] in out;
  }

  /** Two outgoing slots at the end of the list: after the first RemoveAt
      the second position lies past the end, so the resize fails with an
      index out of range. */
  lemma StaleIndicesOverrun(a: Slot, b: Slot, oldS: ByteTrio, newS: ByteTrio)
    requires Shrank(newS, oldS)
    requires BeyondOld(a.coordinates, oldS) && BeyondOld(b.coordinates, oldS)
    ensures !ResizeFits([a, b], oldS, newS)
  {
    var xs := [a, b];
    var out := [SlotIndex(0, a), SlotIndex(1, b)];
    assert Outgoing(xs, oldS, 1) == [SlotIndex(0, a)];
    assert OutgoingOf(xs, oldS) == out;
    assert RemoveAt(xs, 0) == [b] && out[1..] == [SlotIndex(1, b)];
    assert !RemovalsFit([b], out[1..]);
  }

  class SlotClusterFlex {
    /** m_brain */
    var brain: DefaultBrain
    /** m_slotModel */
    var slotModel: SlotModel?
    /** m_size */
    var size: ByteTrio
    /** m_slotList */
    var slotList: seq<Slot>
    /** m_slots */
    var slots: map<ByteTrio, Slot>
    /** The slots handed back to the pool. */
    ghost var released: set<Slot>

    ghost predicate Valid()
      reads this
    {
      IsExtent(size)
    }

    /** The slots the cluster refers to, from its list or its dictionary. */
    ghost function Occupants(): set<Slot>
      reads this
    {
      (set s | s in slotList) + slots.Values
    }

    /** A new cluster: zero extent, no slots. */
    constructor ()
      ensures Valid()
      ensures brain == DefaultBrain(WrapMode.None, WrapMode.None, WrapMode.None, Zero) && slotModel == null
      ensures size == Zero && slotList == [] && slots == map[] && released == {}
    {
      brain := DefaultBrain(WrapMode.None, WrapMode.None, WrapMode.None, Zero);
      slotModel := null;
      size := Zero;
      slotList := [];
      slots := map[];
      released := {};
    }

    /** Count: the length of the list. */
    function Count(): (r: int)
      reads this
      ensures r == |slotList| && r >= 0
    {
      |slotList|
    }

    /** Capacity: the volume of the extent. */
    function Capacity(): (r: int)
      reads this
      ensures IsExtent(size) ==> r == |ExtentCoords(size)|
    {
      if IsExtent(size) then VolumeCountsCoords(size); Volume(size) else Volume(size)
    }

    /** IndexOf: the list position of the slot stored under the clamped
        coordinate, -1 when there is none or it is not in the list. */
    function IndexOf(coord: ByteTrio): (r: int)
      reads this
      requires brain.ClampDefined(coord.x, coord.y, coord.z)
      ensures r == -1 <==> brain.Clamp(coord) !in slots || slots[brain.Clamp(coord)] !in slotList
      ensures r != -1 ==> 0 <= r < |slotList| && slotList[r] == slots[brain.Clamp(coord)]
    {
      var c := brain.Clamp(coord);
      if c in slots then ListIndexOf(slotList, slots[c]) else -1
    }

    /** OnSlotAdded: files the slot under its own coordinate and points it
        back at this cluster. */
    method OnSlotAdded(slot: Slot)
      modifies this`slots, slot`cluster
      ensures slots == old(slots)[slot.coordinates := slot] && slot.cluster == this
    {
      slots := slots[slot.coordinates := slot];
      slot.cluster := this;
    }

    /** Add: returns the slot already filed under the (unclamped)
        coordinate, or appends a new slot placed there. */
    method Add(coord: ByteTrio) returns (r: Slot)
      modifies this`slotList, this`slots
      ensures coord in old(slots) ==> r == old(slots)[coord] && slotList == old(slotList) && slots == old(slots)
      ensures coord !in old(slots) ==>
        fresh(r) && r.coordinates == coord && r.cluster == this
        && slotList == old(slotList) + [r] && slots == old(slots)[coord := r]
    {
      if coord in slots {
        return slots[coord];
      }
      r := new Slot();
      r.coordinates := coord;
      slotList := slotList + [r];
      OnSlotAdded(r);
    }

    /** Remove: takes the slot filed under the (unclamped) coordinate out of
        the dictionary and out of the list; its back-reference is kept. */
    method Remove(coord: ByteTrio) returns (r: Slot?)
      modifies this`slotList, this`slots
      ensures coord !in old(slots) ==> r == null && slotList == old(slotList) && slots == old(slots)
      ensures coord in old(slots) ==>
        r == old(slots)[coord] && slotList == ListRemove(old(slotList), r) && slots == old(slots) - {coord}
    {
      if coord in slots {
        r := slots[coord];
        slotList := ListRemove(slotList, r);
        slots := slots - {coord};
      } else {
        r := null;
      }
    }

    /** Set: a slot of this cluster already at coord is returned as is; one
        elsewhere in this cluster loses its old dictionary entry (it stays in
        the list), any other slot is appended to the list. A different slot
        filed under coord is dropped from the list, detached and, on request,
        released. Then the slot is placed at coord and filed there. */
    method Set(coord: ByteTrio, slot: Slot, releaseExisting: bool) returns (r: Slot)
      modifies this`slotList, this`slots, this`released, slot, (if coord in slots then {slots[coord]} else {})`cluster
      ensures r == slot
      ensures old(slot.cluster) == this && old(slot.coordinates) == coord ==>
        slotList == old(slotList) && slots == old(slots) && released == old(released)
        && slot.cluster == old(slot.cluster) && slot.coordinates == old(slot.coordinates)
      ensures !(old(slot.cluster) == this && old(slot.coordinates) == coord) ==>
        var list1 := if old(slot.cluster) == this then old(slotList) else old(slotList) + [slot];
        var map1 := if old(slot.cluster) == this then old(slots) - {old(slot.coordinates)} else old(slots);
        if coord in map1 && map1[coord] == slot then
          slotList == list1 && slots == map1 && released == old(released)
          && slot.cluster == old(slot.cluster) && slot.coordinates == old(slot.coordinates)
        else
          slotList == (if coord in map1 then ListRemove(list1, map1[coord]) else list1)
          && slots == map1[coord := slot]
          && slot.coordinates == coord && slot.cluster == this
          && (coord in map1 ==> map1[coord].cluster == Detached(this, old(map1[coord].cluster))
                                && map1[coord].coordinates == old(map1[coord].coordinates))
          && released == old(released) + (if coord in map1 && releaseExisting then {map1[coord]} else {})
    {
      if slot.cluster == this {
        if slot.coordinates == coord {
          return slot;
        }
        slots := slots - {slot.coordinates};
      } else {
        slotList := slotList + [slot];
      }
      Place(coord, slot, releaseExisting);
      r := slot;
    }

    /** The second half of Set, once the slot's old filing is gone: a
        different slot filed under coord is dropped from the list, detached
        and, on request, released; then the slot is placed and filed. */
    method Place(coord: ByteTrio, slot: Slot, releaseExisting: bool)
      modifies this`slotList, this`slots, this`released, slot, (if coord in slots then {slots[coord]} else {})`cluster
      ensures coord in old(slots) && old(slots[coord]) == slot ==>
        slotList == old(slotList) && slots == old(slots) && released == old(released)
        && slot.cluster == old(slot.cluster) && slot.coordinates == old(slot.coordinates)
      ensures !(coord in old(slots) && old(slots[coord]) == slot) ==>
        slotList == (if coord in old(slots) then ListRemove(old(slotList), old(slots[coord])) else old(slotList))
        && slots == old(slots)[coord := slot]
        && slot.coordinates == coord && slot.cluster == this
        && (coord in old(slots) ==> old(slots[coord]).cluster == Detached(this, old(slots[coord].cluster))
                                    && old(slots[coord]).coordinates == old(slots[coord].coordinates))
        && released == old(released) + (if coord in old(slots) && releaseExisting then {old(slots[coord])} else {})
    {
      if coord in slots {
        var existing := slots[coord];
        if existing == slot {
          return;
        }
        slotList := ListRemove(slotList, existing);
        OnSlotRemoved(this, existing);
        if releaseExisting {
          released := released + {existing};
        }
      }
      slot.coordinates := coord;
      OnSlotAdded(slot);
    }

    /** TryGet(ByteTrio): looks the clamped coordinate up in the
        dictionary. */
    method TryGet(coord: ByteTrio) returns (found: bool, slot: Slot?)
      requires brain.ClampDefined(coord.x, coord.y, coord.z)
      ensures found <==> brain.Clamp(coord) in slots
      ensures found ==> slot == slots[brain.Clamp(coord)]
      ensures !found ==> slot == null
    {
      var c := brain.Clamp(coord);
      if c in slots {
        return true, slots[c];
      }
      return false, null;
    }

    /** TryGet(int, int, int): the same lookup through the integer Clamp
        overload. */
    method TryGetAt(x: int, y: int, z: int) returns (found: bool, slot: Slot?)
      requires brain.ClampDefined(x, y, z)
      ensures found <==> brain.ClampCoords(x, y, z) in slots
      ensures found ==> slot == slots[brain.ClampCoords(x, y, z)]
      ensures !found ==> slot == null
    {
      var c := brain.ClampCoords(x, y, z);
      if c in slots {
        return true, slots[c];
      }
      return false, null;
    }

    /** TryGet(float3): the brain's mapping of the location to a coordinate
        is given as its result, located. */
    method TryGetLocation(located: Option<ByteTrio>) returns (found: bool, slot: Slot?)
      requires located.Some? ==> brain.ClampDefined(located.value.x, located.value.y, located.value.z)
      ensures found <==> located.Some? && brain.Clamp(located.value) in slots
      ensures found ==> slot == slots[brain.Clamp(located.value)]
      ensures !found ==> slot == null
    {
      if located.Some? {
        found, slot := TryGet(located.value);
        if found {
          return;
        }
      }
      found, slot := false, null;
    }
  
    /** Every coordinate of the extent can be looked up: no LOOP axis of
        the brain with size 0 would be rewritten. */
    ghost predicate FillDefined()
      reads this
    {
      forall c :: InExtent(c, size) ==> brain.ClampDefined(c.x, c.y, c.z)
    }

    /** Fill: walks the extent, z, then y, then x, and adds a slot at every
        coordinate whose clamped lookup finds nothing; Add looks the raw
        coordinate up again. Existing entries are kept, each new key is an
        extent coordinate filed with a new slot of this cluster, appended to
        the list, and afterwards every coordinate of the extent is found,
        clamped or raw. */
    method Fill()
      requires Valid() && slotModel != null && FillDefined()
      requires |slotList| <= Volume(size)
      modifies this`slotList, this`slots
      ensures FillGrows(old(slots), old(slotList))
      ensures forall k :: k in slots && k !in old(slots) ==> fresh(slots[k])
      ensures forall c :: InExtent(c, size) ==> brain.Clamp(c) in slots || c in slots
    {
      var sizeX, sizeY, sizeZ := size.x, size.y, size.z;
      var z := 0;
      while z < sizeZ
        invariant 0 <= z <= sizeZ
        invariant FillGrows(old(slots), old(slotList))
        invariant forall k :: k in slots && k !in old(slots) ==> fresh(slots[k])
        invariant FilledBefore(0, 0, z)
      {
        var y := 0;
        while y < sizeY
          invariant 0 <= y <= sizeY
          invariant FillGrows(old(slots), old(slotList))
          invariant forall k :: k in slots && k !in old(slots) ==> fresh(slots[k])
          invariant FilledBefore(0, y, z)
        {
          var x := 0;
          while x < sizeX
            invariant 0 <= x <= sizeX
            invariant FillGrows(old(slots), old(slotList))
            invariant forall k :: k in slots && k !in old(slots) ==> fresh(slots[k])
            invariant FilledBefore(x, y, z)
          {
            FillCell(ByteTrio(x, y, z), old(slots), old(slotList));
            x := x + 1;
          }
          y := y + 1;
        }
        z := z + 1;
      }
      forall c | InExtent(c, size)
        ensures brain.Clamp(c) in slots || c in slots
      {
        assert WalkedBefore(c, 0, 0, z);
      }
    }

    /** One step of Fill at the in-extent coordinate c. */
    method FillCell(c: ByteTrio, ghost slots0: map<ByteTrio, Slot>, ghost list0: seq<Slot>)
      requires Valid() && FillDefined() && InExtent(c, size)
      requires FillGrows(slots0, list0) && FilledBefore(c.x, c.y, c.z)
      modifies this`slotList, this`slots
      ensures FillGrows(slots0, list0) && FilledBefore(c.x + 1, c.y, c.z)
      ensures forall k :: k in old(slots) ==> k in slots && slots[k] == old(slots)[k]
      ensures forall k :: k in slots && k !in old(slots) ==> fresh(slots[k])
      ensures size == old(size) && brain == old(brain)
    {
      var found, _ := TryGet(c);
      if !found {
        AddMissing(c, slots0, list0);
      }
      forall c' | InExtent(c', size) && WalkedBefore(c', c.x + 1, c.y, c.z)
        ensures brain.Clamp(c') in slots || c' in slots
      {
        if c' != c {
          assert WalkedBefore(c', c.x, c.y, c.z);
        }
      }
    }

    /** Fill's Add at an extent coordinate keeps what Fill maintains. */
    method AddMissing(c: ByteTrio, ghost slots0: map<ByteTrio, Slot>, ghost list0: seq<Slot>)
      requires Valid() && InExtent(c, size) && FillGrows(slots0, list0)
      modifies this`slotList, this`slots
      ensures FillGrows(slots0, list0) && c in slots
      ensures forall k :: k in old(slots) ==> k in slots && slots[k] == old(slots)[k]
      ensures forall k :: k in slots && k !in old(slots) ==> fresh(slots[k])
    {
      ghost var slots1, list1 := slots, slotList;
      var r := Add(c);
      if c !in slots1 {
        assert slots == slots1[c := r] && slotList == list1 + [r];
        assert slotList[..|list0|] == list1[..|list0|];
        forall k | k in slots && k !in slots0
          ensures InExtent(k, size) && slots[k].coordinates == k && slots[k].cluster == this
            && slots[k] in slotList
        {
          if k != c {
            assert k in slots1 && slots[k] == slots1[k] && slots[k] in list1;
          }
        }
        forall j | |list0| <= j < |slotList|
          ensures slotList[j].coordinates in slots && slotList[j].coordinates !in slots0
            && slots[slotList[j].coordinates] == slotList[j]
        {
          if j < |list1| {
            assert slotList[j] == list1[j];
          }
        }
        assert |slots| == |slots1| + 1;
      } else {
        assert slots == slots1 && slotList == list1;
      }
    }

    /** What Fill keeps while it walks: old entries stay, each new key is an
        extent coordinate filed with a slot of this cluster placed there and
        appended to the list, and the list grows by one slot per new key. */
    ghost predicate FillGrows(slots0: map<ByteTrio, Slot>, list0: seq<Slot>)
      reads this, slots.Values, ListSet(slotList)
    {
      |list0| <= |slotList| && slotList[..|list0|] == list0
      && (forall k :: k in slots0 ==> k in slots && slots[k] == slots0[k])
      && (forall k :: k in slots && k !in slots0 ==>
            InExtent(k, size) && slots[k].coordinates == k && slots[k].cluster == this
            && slots[k] in slotList)
      && (forall j :: |list0| <= j < |slotList| ==>
            slotList[j].coordinates in slots && slotList[j].coordinates !in slots0
            && slots[slotList[j].coordinates] == slotList[j])
      && |slotList| - |list0| == |slots| - |slots0|
    }

    /** Every extent coordinate walked before (x, y, z) is found. */
    ghost predicate FilledBefore(x: int, y: int, z: int)
      reads this
      requires FillDefined()
    {
      forall c :: InExtent(c, size) && WalkedBefore(c, x, y, z) ==> brain.Clamp(c) in slots || c in slots
    }

    /** Clear: detaches each slot of the list from this cluster and, on
        request, releases it; then empties the dictionary and the list.
        Slots filed in the dictionary only are not touched. */
    method Clear(release: bool)
      modifies this`slotList, this`slots, this`released, ListSet(slotList)`cluster
      ensures slotList == [] && slots == map[]
      ensures forall s :: s in old(ListSet(slotList)) ==> s.cluster == Detached(this, old(s.cluster))
      ensures released == old(released) + (if release then old(ListSet(slotList)) else {})
    {
      var i := 0;
      var count := |slotList|;
      while i < count
        invariant 0 <= i <= count && slotList == old(slotList)
        invariant forall s :: s in old(ListSet(slotList)) ==>
          s.cluster == (if s in ListSet(slotList[..i]) then Detached(this, old(s.cluster)) else old(s.cluster))
        invariant released == old(released) + (if release then ListSet(slotList[..i]) else {})
      {
        var slot := slotList[i];
        assert ListSet(slotList[..i + 1]) == ListSet(slotList[..i]) + {slot} by {
          assert slotList[..i + 1] == slotList[..i] + [slot];
        }
        OnSlotRemoved(this, slot);
        if release {
          released := released + {slot};
        }
        i := i + 1;
      }
      assert slotList[..i] == slotList;
      slots := map[];
      slotList := [];
    }

    /** OnSizeChanged, run by the size setter once the size holds the new
        extent: when the list is not empty and some axis shrank, collects
        the list positions of the slots lying at or beyond the OLD size on
        some axis, then removes each by its collected (stale) position,
        detaching and releasing it. The dictionary is left as it was.
        Returns the size difference. */
    method OnSizeChanged(oldSize: ByteTrio) returns (d: Int3)
      requires ResizeFits(slotList, oldSize, size)
      modifies this`slotList, this`released, ListSet(slotList)`cluster
      ensures d == SizeDiff(size, oldSize)
      ensures slots == old(slots)
      ensures slotList == old(Resized(slotList, oldSize, size))
      ensures released == old(released) + old(ResizeEvicted(slotList, oldSize, size))
      ensures forall s :: s in old(ListSet(slotList)) ==>
        s.cluster == (if s in old(ResizeEvicted(slotList, oldSize, size)) then Detached(this, old(s.cluster)) else old(s.cluster))
    {
      d := SizeDiff(size, oldSize);
      if |slotList| == 0 || (d.x >= 0 && d.y >= 0 && d.z >= 0) {
        return;
      }
      var outgoing := CollectOutgoing(oldSize);
      OutgoingExact(slotList, oldSize, |slotList|);
      RemoveOutgoing(outgoing);
    }

    /** The first walk of OnSizeChanged: the position and slot of every
        listed slot at or beyond the old size on some axis. */
    method CollectOutgoing(oldSize: ByteTrio) returns (outgoing: seq<SlotIndex>)
      ensures outgoing == OutgoingOf(slotList, oldSize)
    {
      outgoing := [];
      var sizeX, sizeY, sizeZ := oldSize.x, oldSize.y, oldSize.z;
      var i := 0;
      var count := |slotList|;
      while i < count
        invariant 0 <= i <= count && outgoing == Outgoing(slotList, oldSize, i)
      {
        var slot := slotList[i];
        var coord := slot.coordinates;
        if coord.x >= sizeX || coord.y >= sizeY || coord.z >= sizeZ {
          outgoing := outgoing + [SlotIndex(i, slot)];
        }
        i := i + 1;
      }
    }

    /** The second walk of OnSizeChanged: RemoveAt at each collected
        position in turn, then detach and release the slot. */
    method RemoveOutgoing(outgoing: seq<SlotIndex>)
      requires RemovalsFit(slotList, outgoing)
      modifies this`slotList, this`released, OutSlots(outgoing)`cluster
      ensures slotList == RemoveEach(old(slotList), outgoing)
      ensures released == old(released) + OutSlots(outgoing)
      ensures forall s :: s in OutSlots(outgoing) ==> s.cluster == Detached(this, old(s.cluster))
    {
      ghost var dom := OutSlots(outgoing);
      ghost var before := map s | s in dom :: s.cluster;
      ghost var seen: set<Slot> := {};
      var rest := outgoing;
      while |rest| > 0
        invariant RemovalsFit(slotList, rest)
        invariant RemoveEach(old(slotList), outgoing) == RemoveEach(slotList, rest)
        invariant dom == seen + OutSlots(rest)
        invariant released == old(released) + seen
        invariant DetachedSoFar(dom, seen, before)
      {
        var o := rest[0];
        OutSlotsCons(rest);
        RemoveStep(o, dom, seen, before);
        seen := seen + {o.slot};
        rest := rest[1..];
      }
    }

    /** The slots of dom already seen are detached from this cluster, the
        others keep the cluster recorded in before. */
    ghost predicate DetachedSoFar(dom: set<Slot>, seen: set<Slot>, before: map<Slot, object?>)
      reads dom
    {
      forall s :: s in dom ==>
        s in before && s.cluster == (if s in seen then Detached(this, before[s]) else before[s])
    }

    /** One pass of RemoveOutgoing's loop: RemoveAt, OnSlotRemoved and
        Release for one outgoing entry. */
    method RemoveStep(o: SlotIndex, ghost dom: set<Slot>, ghost seen: set<Slot>, ghost before: map<Slot, object?>)
      requires 0 <= o.index < |slotList| && o.slot in dom && DetachedSoFar(dom, seen, before)
      modifies this`slotList, this`released, o.slot`cluster
      ensures slotList == RemoveAt(old(slotList), o.index) && released == old(released) + {o.slot}
      ensures DetachedSoFar(dom, seen + {o.slot}, before)
    {
      slotList := RemoveAt(slotList, o.index);
      OnSlotRemoved(this, o.slot);
      released := released + {o.slot};
    }

    /** The size setter: nothing happens when the size is unchanged;
        otherwise the size and the brain's clusterSize take the new value and
        OnSizeChanged trims the list. */
    method SetSize(value: ByteTrio)
      requires Valid() && IsExtent(value)
      requires value != size ==> ResizeFits(slotList, size, value)
      modifies this`size, this`brain, this`slotList, this`released, ListSet(slotList)`cluster
      ensures Valid() && size == value && slots == old(slots)
      ensures value == old(size) ==> brain == old(brain) && slotList == old(slotList) && released == old(released)
      ensures value != old(size) ==>
        brain == old(brain).WithClusterSize(value)
        && slotList == old(Resized(slotList, size, value))
        && released == old(released) + old(ResizeEvicted(slotList, size, value))
      ensures forall s :: s in old(ListSet(slotList)) ==>
        s.cluster == (if value != old(size) && s in old(ResizeEvicted(slotList, size, value))
                      then Detached(this, old(s.cluster)) else old(s.cluster))
    {
      if size == value {
        return;
      }
      var oldSize := size;
      size := value;
      brain := brain.WithClusterSize(value);
      var _ := OnSizeChanged(oldSize);
    }

    /** SetBrain: stores the brain (whose slotModel setter dereferences the
        cluster's model) and assigns its clusterSize through the size
        setter. */
    method SetBrain(b: DefaultBrain)
      requires Valid() && slotModel != null && IsExtent(b.clusterSize)
      requires b.clusterSize != size ==> ResizeFits(slotList, size, b.clusterSize)
      modifies this`size, this`brain, this`slotList, this`released, ListSet(slotList)`cluster
      ensures Valid() && brain == b && size == b.clusterSize && slots == old(slots)
      ensures b.clusterSize == old(size) ==> slotList == old(slotList) && released == old(released)
      ensures b.clusterSize != old(size) ==>
        slotList == old(Resized(slotList, size, b.clusterSize))
        && released == old(released) + old(ResizeEvicted(slotList, size, b.clusterSize))
      ensures forall s :: s in old(ListSet(slotList)) ==>
        s.cluster == (if b.clusterSize != old(size) && s in old(ResizeEvicted(slotList, size, b.clusterSize))
                      then Detached(this, old(s.cluster)) else old(s.cluster))
    {
      brain := b;
      assert b.WithClusterSize(b.clusterSize) == b;
      SetSize(b.clusterSize);
    }

    /** The state Init leaves: the model and brain it was given, and either
        nothing stored or, after Fill, a dictionary of extent coordinates,
        each filed with a slot of this cluster placed there and listed, a
        list of exactly those slots, and every extent coordinate found. */
    ghost predicate Initialised(model: SlotModel?, b: DefaultBrain, fill: bool)
      reads this, slots.Values, ListSet(slotList)
    {
      Valid() && slotModel == model && brain == b && size == b.clusterSize
      && (!fill ==> slotList == [] && slots == map[])
      && (fill ==>
            (forall k :: k in slots ==>
               InExtent(k, size) && slots[k].coordinates == k && slots[k].cluster == this && slots[k] in slotList)
            && (forall j :: 0 <= j < |slotList| ==>
                  slotList[j].coordinates in slots && slots[slotList[j].coordinates] == slotList[j])
            && |slotList| == |slots|
            && (forall c :: InExtent(c, size) ==> brain.Clamp(c) in slots || c in slots))
    }

    /** The initialisation shared by every Init overload: clears the cluster
        releasing the listed slots, stores the model, sets the brain and
        fills the cluster on request. */
    method Init(model: SlotModel?, b: DefaultBrain, fill: bool)
      requires Valid() && model != null && IsExtent(b.clusterSize)
      modifies this`slotModel, this`size, this`brain, this`slotList, this`slots, this`released, ListSet(slotList)`cluster
      ensures Initialised(model, b, fill)
      ensures forall k :: k in slots ==> fresh(slots[k])
      ensures forall s :: s in old(ListSet(slotList)) ==> s.cluster == Detached(this, old(s.cluster))
      ensures released == old(released) + old(ListSet(slotList))
    {
      Clear(true);
      slotModel := model;
      SetBrain(b);
      if fill {
        Fill();
      }
    }

    /** Init(model, size, fill): as Init with the current brain resized to
        the given size. */
    method InitWithSize(model: SlotModel?, clusterSize: ByteTrio, fill: bool)
      requires Valid() && model != null && IsExtent(clusterSize)
      modifies this`slotModel, this`size, this`brain, this`slotList, this`slots, this`released, ListSet(slotList)`cluster
      ensures Initialised(model, old(brain).WithClusterSize(clusterSize), fill)
      ensures forall k :: k in slots ==> fresh(slots[k])
      ensures forall s :: s in old(ListSet(slotList)) ==> s.cluster == Detached(this, old(s.cluster))
      ensures released == old(released) + old(ListSet(slotList))
    {
      Init(model, brain.WithClusterSize(clusterSize), fill);
    }

    /** Init(model, size, wrapX, wrapY, wrapZ, fill): the brain it builds
        from the size and the wrap modes is discarded and the current brain
        is set again, so those four arguments have no effect. */
    method InitWithWraps(model: SlotModel?, clusterSize: ByteTrio, wrapX: WrapMode, wrapY: WrapMode, wrapZ: WrapMode,
                         fill: bool)
      requires Valid() && model != null && IsExtent(brain.clusterSize)
      modifies this`slotModel, this`size, this`brain, this`slotList, this`slots, this`released, ListSet(slotList)`cluster
      ensures Initialised(model, old(brain), fill)
      ensures forall k :: k in slots ==> fresh(slots[k])
      ensures forall s :: s in old(ListSet(slotList)) ==> s.cluster == Detached(this, old(s.cluster))
      ensures released == old(released) + old(ListSet(slotList))
    {
      Init(model, brain, fill);
    }

    /** CleanUp, run when the cluster returns to its pool: clears it without
        releasing, drops the model and zeroes the size field directly; the
        brain keeps its extent. */
    method CleanUp()
      modifies this`slotModel, this`size, this`slotList, this`slots, this`released, ListSet(slotList)`cluster
      ensures Valid() && size == Zero && slotModel == null && Capacity() == 0 && Count() == 0
      ensures brain == old(brain) && slots == map[] && released == old(released)
      ensures forall s :: s in old(ListSet(slotList)) ==> s.cluster == Detached(this, old(s.cluster))
    {
      Clear(false);
      slotModel := null;
      size := Zero;
    }

    /** After a filling Init with a brain that keeps the extent, the
        dictionary's keys are exactly the extent, Count equals Capacity, and
        IndexOf of each extent coordinate is the list position of the slot
        placed there. */
    lemma FillCoversExtent(model: SlotModel?, b: DefaultBrain)
      requires Initialised(model, b, true) && ClampKeepsExtent(b, b.clusterSize)
      ensures slots.Keys == ExtentCoords(size)
      ensures Count() == Capacity()
      ensures forall c :: InExtent(c, size) ==>
        0 <= IndexOf(c) < |slotList| && slotList[IndexOf(c)].coordinates == c
    {
      forall c | InExtent(c, size)
        ensures c in slots && brain.Clamp(c) == c
      {
        ClampIdentityOnExtent(b, c);
      }
      assert slots.Keys == ExtentCoords(size);
      assert |slots| == |slots.Keys|;
    }
  }
}
