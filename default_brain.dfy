/** The integer part of the Cartesian brain (DefaultBrain): its wrap modes,
    its lattice extent, the Clamp overloads, Contains on a coordinate and
    Capacity. The brain is a value type in the source, so it is a datatype
    here and its property setters are update functions. */
module DefaultBrains {

  import opened Coords
  import opened Wrapping

  datatype DefaultBrain = DefaultBrain(wrapX: WrapMode, wrapY: WrapMode, wrapZ: WrapMode, clusterSize: ByteTrio)
  {
    /** No LOOP axis with size 0 would be rewritten (a division by zero in
        the source). The z axis is rewritten against the bound clusterSize.y
        but wrapped with clusterSize.z. */
    predicate ClampDefined(x: int, y: int, z: int) {
      WrapDefined(x, wrapX, clusterSize.x, clusterSize.x)
      && WrapDefined(y, wrapY, clusterSize.y, clusterSize.y)
      && WrapDefined(z, wrapZ, clusterSize.y, clusterSize.z)
    }

    /** Clamp(ref int x, ref int y, ref int z) and Clamp(ref int3): the
        reference definition, with no byte conversion. */
    function ClampInts(x: int, y: int, z: int): (r: Int3)
      requires ClampDefined(x, y, z)
      ensures wrapX == None ==> r.x == x
      ensures wrapY == None ==> r.y == y
      ensures wrapZ == None ==> r.z == z
      ensures InAxis(x, clusterSize.x) ==> r.x == x
      ensures InAxis(y, clusterSize.y) ==> r.y == y
    {
      Int3(WrapAxis(x, wrapX, clusterSize.x, clusterSize.x),
           WrapAxis(y, wrapY, clusterSize.y, clusterSize.y),
           WrapAxis(z, wrapZ, clusterSize.y, clusterSize.z))
    }

    /** Clamp(ByteTrio) by value: every rewritten component is converted
        to a byte. */
    function Clamp(coord: ByteTrio): (r: ByteTrio)
      requires ClampDefined(coord.x, coord.y, coord.z)
      ensures wrapX == None ==> r.x == coord.x
      ensures wrapY == None ==> r.y == coord.y
      ensures wrapZ == None ==> r.z == coord.z
      ensures InAxis(coord.x, clusterSize.x) ==> r.x == coord.x
      ensures InAxis(coord.y, clusterSize.y) ==> r.y == coord.y
    {
      ByteTrio(WrapAxisByte(coord.x, wrapX, clusterSize.x, clusterSize.x),
               WrapAxisByte(coord.y, wrapY, clusterSize.y, clusterSize.y),
               WrapAxisByte(coord.z, wrapZ, clusterSize.y, clusterSize.z))
    }

    /** Clamp(int x, int y, int z): the same rewriting as Clamp(ByteTrio),
        applied to three integers that then form the coordinate. */
    function ClampCoords(x: int, y: int, z: int): (r: ByteTrio)
      requires ClampDefined(x, y, z)
      ensures r == Clamp(ByteTrio(x, y, z))
    {
      ByteTrio(WrapAxisByte(x, wrapX, clusterSize.x, clusterSize.x),
               WrapAxisByte(y, wrapY, clusterSize.y, clusterSize.y),
               WrapAxisByte(z, wrapZ, clusterSize.y, clusterSize.z))
    }

    /** Clamp(ref ByteTrio): rewrites the coordinate axis by axis, in place. */
    method ClampRef(coord: ByteTrio) returns (c: ByteTrio)
      requires ClampDefined(coord.x, coord.y, coord.z)
      ensures c == Clamp(coord)
    {
      c := coord;
      if wrapX != None {
        if c.x < 0 {
          c := c.(x := ToByte(if wrapX == Loop then clusterSize.x + TruncMod(c.x, clusterSize.x) else 0));
        } else if c.x >= clusterSize.x {
          c := c.(x := ToByte(if wrapX == Loop then TruncMod(c.x, clusterSize.x) else clusterSize.x - 1));
        }
      }
      assert c.x == WrapAxisByte(coord.x, wrapX, clusterSize.x, clusterSize.x);
      if wrapY != None {
        if c.y < 0 {
          c := c.(y := ToByte(if wrapY == Loop then clusterSize.y + TruncMod(c.y, clusterSize.y) else 0));
        } else if c.y >= clusterSize.y {
          c := c.(y := ToByte(if wrapY == Loop then TruncMod(c.y, clusterSize.y) else clusterSize.y - 1));
        }
      }
      assert c.y == WrapAxisByte(coord.y, wrapY, clusterSize.y, clusterSize.y);
      if wrapZ != None {
        if c.z < 0 {
          c := c.(z := ToByte(if wrapZ == Loop then clusterSize.z + TruncMod(c.z, clusterSize.z) else 0));
        } else if c.z >= clusterSize.y {
          c := c.(z := ToByte(if wrapZ == Loop then TruncMod(c.z, clusterSize.z) else clusterSize.z - 1));
        }
      }
      assert c.z == WrapAxisByte(coord.z, wrapZ, clusterSize.y, clusterSize.z);
    }

    /** Clamp(ref int x, ref int y, ref int z): rewrites three integers in
        place; the in/out parameters become an input and an output each. */
    method ClampRefInts(x0: int, y0: int, z0: int) returns (x: int, y: int, z: int)
      requires ClampDefined(x0, y0, z0)
      ensures Int3(x, y, z) == ClampInts(x0, y0, z0)
    {
      x, y, z := x0, y0, z0;
      if wrapX != None {
        if x < 0 {
          x := if wrapX == Loop then clusterSize.x + TruncMod(x, clusterSize.x) else 0;
        } else if x >= clusterSize.x {
          x := if wrapX == Loop then TruncMod(x, clusterSize.x) else clusterSize.x - 1;
        }
      }
      if wrapY != None {
        if y < 0 {
          y := if wrapY == Loop then clusterSize.y + TruncMod(y, clusterSize.y) else 0;
        } else if y >= clusterSize.y {
          y := if wrapY == Loop then TruncMod(y, clusterSize.y) else clusterSize.y - 1;
        }
      }
      if wrapZ != None {
        if z < 0 {
          z := if wrapZ == Loop then clusterSize.z + TruncMod(z, clusterSize.z) else 0;
        } else if z >= clusterSize.y {
          z := if wrapZ == Loop then TruncMod(z, clusterSize.z) else clusterSize.z - 1;
        }
      }
    }

    /** Clamp(ref int3): the same rewriting on an int3 held in place. */
    method ClampRefInt3(coord: Int3) returns (c: Int3)
      requires ClampDefined(coord.x, coord.y, coord.z)
      ensures c == ClampInts(coord.x, coord.y, coord.z)
    {
      var x, y, z := ClampRefInts(coord.x, coord.y, coord.z);
      c := Int3(x, y, z);
    }

    /** Contains(ref ByteTrio): only axes whose mode is NONE are checked, so
        the coordinate is rejected exactly when some NONE axis is out of
        range. */
    predicate Contains(coord: ByteTrio): (r: bool)
      ensures r <==> RejectingAxes(this, coord) == {}
    {
      if wrapX == None && (coord.x < 0 || coord.x >= clusterSize.x) then false
      else if wrapY == None && (coord.y < 0 || coord.y >= clusterSize.y) then false
      else if wrapZ == None && (coord.z < 0 || coord.z >= clusterSize.z) then false
      else true
    }

    /** Capacity: the volume of the lattice extent. */
    function Capacity(): (r: int)
      requires IsExtent(clusterSize)
      ensures r >= 0
      ensures r == |ExtentCoords(clusterSize)|
    {
      VolumeCountsCoords(clusterSize);
      Volume(clusterSize)
    }

    /** The clusterSize setter stores the given extent and nothing else. */
    function WithClusterSize(s: ByteTrio): (b: DefaultBrain)
      ensures b.clusterSize == s
      ensures b.wrapX == wrapX && b.wrapY == wrapY && b.wrapZ == wrapZ
    {
      this.(clusterSize := s)
    }

    /** The wrapX setter touches only the x mode. */
    function WithWrapX(m: WrapMode): (b: DefaultBrain)
      ensures b.wrapX == m
      ensures b.wrapY == wrapY && b.wrapZ == wrapZ && b.clusterSize == clusterSize
    {
      this.(wrapX := m)
    }

    /** The wrapY setter touches only the y mode. */
    function WithWrapY(m: WrapMode): (b: DefaultBrain)
      ensures b.wrapY == m
      ensures b.wrapX == wrapX && b.wrapZ == wrapZ && b.clusterSize == clusterSize
    {
      this.(wrapY := m)
    }

    /** The wrapZ setter touches only the z mode. */
    function WithWrapZ(m: WrapMode): (b: DefaultBrain)
      ensures b.wrapZ == m
      ensures b.wrapX == wrapX && b.wrapY == wrapY && b.clusterSize == clusterSize
    {
      this.(wrapZ := m)
    }

    /** No axis of c sits on the LOOP seam: a negative multiple of its size,
        which LOOP sends to the size itself. */
    predicate OffSeam(c: ByteTrio) {
      (wrapX == Loop && c.x < 0 && clusterSize.x > 0 ==> c.x % clusterSize.x != 0)
      && (wrapY == Loop && c.y < 0 && clusterSize.y > 0 ==> c.y % clusterSize.y != 0)
      && (wrapZ == Loop && c.z < 0 && clusterSize.z > 0 ==> c.z % clusterSize.z != 0)
    }
  }

  /** The axes (0 for x, 1 for y, 2 for z) whose mode is NONE and whose
      component lies outside [0, size). */
  function RejectingAxes(b: DefaultBrain, c: ByteTrio): set<int> {
    (if b.wrapX == None && !InAxis(c.x, b.clusterSize.x) then {0} else {})
    + (if b.wrapY == None && !InAxis(c.y, b.clusterSize.y) then {1} else {})
    + (if b.wrapZ == None && !InAxis(c.z, b.clusterSize.z) then {2} else {})
  }

  /** With all three axes wrapping, every coordinate is contained. */
  lemma ContainsAllWhenWrapped(b: DefaultBrain, c: ByteTrio)
    requires b.wrapX != None && b.wrapY != None && b.wrapZ != None
    ensures b.Contains(c)
  {
  }

  /** The z upper test compares against clusterSize.y: on a wrapping z axis
      a component in [size.z, size.y) is out of the extent yet left alone. */
  lemma ZTestLeavesOutOfRange(b: DefaultBrain, x: int, y: int, z: int)
    requires b.ClampDefined(x, y, z)
    requires b.wrapZ != None && 0 <= b.clusterSize.z <= z < b.clusterSize.y
    ensures b.ClampInts(x, y, z).z == z
    ensures !InAxis(b.ClampInts(x, y, z).z, b.clusterSize.z)
  {
  }

  /** ... and on a clamping z axis an in-range component in
      [size.y, size.z - 1) is moved to size.z - 1. */
  lemma ZTestMovesInRange(b: DefaultBrain, x: int, y: int, z: int)
    requires b.ClampDefined(x, y, z)
    requires b.wrapZ == Clamp && 0 <= b.clusterSize.y <= z < b.clusterSize.z - 1
    ensures InAxis(z, b.clusterSize.z)
    ensures b.ClampInts(x, y, z).z == b.clusterSize.z - 1 != z
  {
  }

  /** A clamped coordinate that the brain contains has no negative
      component: NONE axes were checked, other axes were rewritten into bytes
      or already lay in [0, bound). */
  lemma ClampedContainedNonNegative(b: DefaultBrain, c: ByteTrio)
    requires b.ClampDefined(c.x, c.y, c.z)
    requires b.Contains(b.Clamp(c))
    ensures b.Clamp(c).x >= 0 && b.Clamp(c).y >= 0 && b.Clamp(c).z >= 0
  {
  }

  /** An in-extent coordinate is contained by a brain of that extent. */
  lemma ContainsExtent(b: DefaultBrain, c: ByteTrio)
    requires InExtent(c, b.clusterSize)
    ensures b.Contains(c)
  {
  }

  /** A contained coordinate off the LOOP seam is clamped into the extent,
      provided the z bound does not fall short of the z size. */
  lemma {:induction false} ClampLandsInExtent(b: DefaultBrain, c: ByteTrio)
    requires b.clusterSize.x > 0 && b.clusterSize.y > 0 && b.clusterSize.z > 0
    requires b.clusterSize.y <= b.clusterSize.z
    requires b.Contains(c) && b.OffSeam(c)
    ensures b.ClampDefined(c.x, c.y, c.z)
    ensures var r := b.ClampInts(c.x, c.y, c.z); InExtent(ByteTrio(r.x, r.y, r.z), b.clusterSize)
  {
    var s := b.clusterSize;
    if b.wrapX != None { WrapLandsInAxis(c.x, b.wrapX, s.x); }
    if b.wrapY != None { WrapLandsInAxis(c.y, b.wrapY, s.y); }
  }

  /** For extents of 1..255 cells per axis the byte overloads agree with the
      reference definition. */
  lemma {:induction false} ClampAgreesWithInts(b: DefaultBrain, c: ByteTrio)
    requires 1 <= b.clusterSize.x <= 255 && 1 <= b.clusterSize.y <= 255 && 1 <= b.clusterSize.z <= 255
    ensures b.ClampDefined(c.x, c.y, c.z)
    ensures var r := b.ClampInts(c.x, c.y, c.z); b.Clamp(c) == ByteTrio(r.x, r.y, r.z)
  {
    var s := b.clusterSize;
    ByteCastAgrees(c.x, b.wrapX, s.x, s.x);
    ByteCastAgrees(c.y, b.wrapY, s.y, s.y);
    ByteCastAgrees(c.z, b.wrapZ, s.y, s.z);
  }

  /** Clamp is the identity on the extent, unless a clamping z axis is taller
      than its bound clusterSize.y. */
  lemma {:induction false} ClampIdentityOnExtent(b: DefaultBrain, c: ByteTrio)
    requires IsByteExtent(b.clusterSize)
    requires InExtent(c, b.clusterSize)
    requires b.wrapZ != Clamp || b.clusterSize.z <= b.clusterSize.y
    ensures b.ClampDefined(c.x, c.y, c.z)
    ensures b.Clamp(c) == c
  {
    var s := b.clusterSize;
    WrapByteKeepsInAxis(c.x, b.wrapX, s.x, s.x);
    WrapByteKeepsInAxis(c.y, b.wrapY, s.y, s.y);
    WrapByteKeepsInAxis(c.z, b.wrapZ, s.y, s.z);
  }

  /** Clamp is not idempotent: with a LOOP x axis of size 2, the coordinate
      (-2, 0, 0) is sent to (2, 0, 0) and then to (0, 0, 0). */
  lemma ClampNotIdempotent()
    ensures var b := DefaultBrain(Loop, None, None, ByteTrio(2, 1, 1));
      b.Clamp(ByteTrio(-2, 0, 0)) == ByteTrio(2, 0, 0)
      && b.Clamp(b.Clamp(ByteTrio(-2, 0, 0))) == ByteTrio(0, 0, 0)
  {
    var b := DefaultBrain(Loop, None, None, ByteTrio(2, 1, 1));
    LoopNotIdempotent(2);
    assert WrapAxisByte(-2, Loop, 2, 2) == 2;
  }
}
