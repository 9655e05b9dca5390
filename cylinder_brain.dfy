/** The integer part of the cylindrical brain (CylinderBrain). Its wrap
    modes, extent, Clamp overloads, Contains on a coordinate and Capacity are
    the same integer code as the Cartesian brain's, duplicated in the source;
    they are deliberately duplicated here too, over the shared per-axis
    definitions, and AgreesWithDefault proves the two brains agree. Its angular and radial geometry is floating
    point and is not part of this model. */
module CylinderBrains {

  import opened Coords
  import opened Wrapping
  import DefaultBrains

  datatype CylinderBrain = CylinderBrain(wrapX: WrapMode, wrapY: WrapMode, wrapZ: WrapMode, clusterSize: ByteTrio)
  {
    /** No LOOP axis with size 0 would be rewritten (a division by zero in
        the source). The z axis is rewritten against the bound clusterSize.y
        but wrapped with clusterSize.z. */
    predicate ClampDefined(x: int, y: int, z: int) {
      WrapDefined(x, wrapX, clusterSize.x, clusterSize.x)
      && WrapDefined(y, wrapY, clusterSize.y, clusterSize.y)
      && WrapDefined(z, wrapZ, clusterSize.y, clusterSize.z)
    }

    /** Clamp(ref int x, ref int y, ref int z) and Clamp(ref int3): the
        reference definition, with no byte conversion. */
    function ClampInts(x: int, y: int, z: int): (r: Int3)
      requires ClampDefined(x, y, z)
      ensures wrapX == None ==> r.x == x
      ensures wrapY == None ==> r.y == y
      ensures wrapZ == None ==> r.z == z
      ensures InAxis(x, clusterSize.x) ==> r.x == x
      ensures InAxis(y, clusterSize.y) ==> r.y == y
    {
      Int3(WrapAxis(x, wrapX, clusterSize.x, clusterSize.x),
           WrapAxis(y, wrapY, clusterSize.y, clusterSize.y),
           WrapAxis(z, wrapZ, clusterSize.y, clusterSize.z))
    }

    /** Clamp(ByteTrio) by value: every rewritten component is converted
        to a byte. */
    function Clamp(coord: ByteTrio): (r: ByteTrio)
      requires ClampDefined(coord.x, coord.y, coord.z)
      ensures wrapX == None ==> r.x == coord.x
      ensures wrapY == None ==> r.y == coord.y
      ensures wrapZ == None ==> r.z == coord.z
      ensures InAxis(coord.x, clusterSize.x) ==> r.x == coord.x
      ensures InAxis(coord.y, clusterSize.y) ==> r.y == coord.y
    {
      ByteTrio(WrapAxisByte(coord.x, wrapX, clusterSize.x, clusterSize.x),
               WrapAxisByte(coord.y, wrapY, clusterSize.y, clusterSize.y),
               WrapAxisByte(coord.z, wrapZ, clusterSize.y, clusterSize.z))
    }

    /** Clamp(int x, int y, int z): the same rewriting as Clamp(ByteTrio),
        applied to three integers that then form the coordinate. */
    function ClampCoords(x: int, y: int, z: int): (r: ByteTrio)
      requires ClampDefined(x, y, z)
      ensures r == Clamp(ByteTrio(x, y, z))
    {
      ByteTrio(WrapAxisByte(x, wrapX, clusterSize.x, clusterSize.x),
               WrapAxisByte(y, wrapY, clusterSize.y, clusterSize.y),
               WrapAxisByte(z, wrapZ, clusterSize.y, clusterSize.z))
    }

    /** Clamp(ref ByteTrio): rewrites the coordinate axis by axis, in place. */
    method ClampRef(coord: ByteTrio) returns (c: ByteTrio)
      requires ClampDefined(coord.x, coord.y, coord.z)
      ensures c == Clamp(coord)
    {
      c := coord;
      if wrapX != None {
        if c.x < 0 {
          c := c.(x := ToByte(if wrapX == Loop then clusterSize.x + TruncMod(c.x, clusterSize.x) else 0));
        } else if c.x >= clusterSize.x {
          c := c.(x := ToByte(if wrapX == Loop then TruncMod(c.x, clusterSize.x) else clusterSize.x - 1));
        }
      }
      assert c.x == WrapAxisByte(coord.x, wrapX, clusterSize.x, clusterSize.x);
      if wrapY != None {
        if c.y < 0 {
          c := c.(y := ToByte(if wrapY == Loop then clusterSize.y + TruncMod(c.y, clusterSize.y) else 0));
        } else if c.y >= clusterSize.y {
          c := c.(y := ToByte(if wrapY == Loop then TruncMod(c.y, clusterSize.y) else clusterSize.y - 1));
        }
      }
      assert c.y == WrapAxisByte(coord.y, wrapY, clusterSize.y, clusterSize.y);
      if wrapZ != None {
        if c.z < 0 {
          c := c.(z := ToByte(if wrapZ == Loop then clusterSize.z + TruncMod(c.z, clusterSize.z) else 0));
        } else if c.z >= clusterSize.y {
          c := c.(z := ToByte(if wrapZ == Loop then TruncMod(c.z, clusterSize.z) else clusterSize.z - 1));
        }
      }
      assert c.z == WrapAxisByte(coord.z, wrapZ, clusterSize.y, clusterSize.z);
    }

    /** Clamp(ref int x, ref int y, ref int z): rewrites three integers in
        place; the in/out parameters become an input and an output each. */
    method ClampRefInts(x0: int, y0: int, z0: int) returns (x: int, y: int, z: int)
      requires ClampDefined(x0, y0, z0)
      ensures Int3(x, y, z) == ClampInts(x0, y0, z0)
    {
      x, y, z := x0, y0, z0;
      if wrapX != None {
        if x < 0 {
          x := if wrapX == Loop then clusterSize.x + TruncMod(x, clusterSize.x) else 0;
        } else if x >= clusterSize.x {
          x := if wrapX == Loop then TruncMod(x, clusterSize.x) else clusterSize.x - 1;
        }
      }
      if wrapY != None {
        if y < 0 {
          y := if wrapY == Loop then clusterSize.y + TruncMod(y, clusterSize.y) else 0;
        } else if y >= clusterSize.y {
          y := if wrapY == Loop then TruncMod(y, clusterSize.y) else clusterSize.y - 1;
        }
      }
      if wrapZ != None {
        if z < 0 {
          z := if wrapZ == Loop then clusterSize.z + TruncMod(z, clusterSize.z) else 0;
        } else if z >= clusterSize.y {
          z := if wrapZ == Loop then TruncMod(z, clusterSize.z) else clusterSize.z - 1;
        }
      }
    }

    /** Clamp(ref int3): the same rewriting on an int3 held in place. */
    method ClampRefInt3(coord: Int3) returns (c: Int3)
      requires ClampDefined(coord.x, coord.y, coord.z)
      ensures c == ClampInts(coord.x, coord.y, coord.z)
    {
      var x, y, z := ClampRefInts(coord.x, coord.y, coord.z);
      c := Int3(x, y, z);
    }

    /** Contains(ref ByteTrio): only axes whose mode is NONE are checked, so
        the coordinate is rejected exactly when some NONE axis is out of
        range. */
    predicate Contains(coord: ByteTrio): (r: bool)
      ensures r <==> DefaultBrains.RejectingAxes(AsDefault(this), coord) == {}
    {
      if wrapX == None && (coord.x < 0 || coord.x >= clusterSize.x) then false
      else if wrapY == None && (coord.y < 0 || coord.y >= clusterSize.y) then false
      else if wrapZ == None && (coord.z < 0 || coord.z >= clusterSize.z) then false
      else true
    }

    /** Capacity: the volume of the lattice extent. */
    function Capacity(): (r: int)
      requires IsExtent(clusterSize)
      ensures r >= 0
      ensures r == |ExtentCoords(clusterSize)|
    {
      VolumeCountsCoords(clusterSize);
      Volume(clusterSize)
    }

    /** The clusterSize setter stores the given extent and nothing else. */
    function WithClusterSize(s: ByteTrio): (b: CylinderBrain)
      ensures b.clusterSize == s
      ensures b.wrapX == wrapX && b.wrapY == wrapY && b.wrapZ == wrapZ
    {
      this.(clusterSize := s)
    }

    /** The wrapX setter touches only the x mode. */
    function WithWrapX(m: WrapMode): (b: CylinderBrain)
      ensures b.wrapX == m
      ensures b.wrapY == wrapY && b.wrapZ == wrapZ && b.clusterSize == clusterSize
    {
      this.(wrapX := m)
    }

    /** The wrapY setter touches only the y mode. */
    function WithWrapY(m: WrapMode): (b: CylinderBrain)
      ensures b.wrapY == m
      ensures b.wrapX == wrapX && b.wrapZ == wrapZ && b.clusterSize == clusterSize
    {
      this.(wrapY := m)
    }

    /** The wrapZ setter touches only the z mode. */
    function WithWrapZ(m: WrapMode): (b: CylinderBrain)
      ensures b.wrapZ == m
      ensures b.wrapX == wrapX && b.wrapY == wrapY && b.clusterSize == clusterSize
    {
      this.(wrapZ := m)
    }
  }

  /** The Cartesian brain with the same modes and extent. */
  function AsDefault(b: CylinderBrain): (d: DefaultBrains.DefaultBrain)
    ensures d.wrapX == b.wrapX && d.wrapY == b.wrapY && d.wrapZ == b.wrapZ
    ensures d.clusterSize == b.clusterSize
  {
    DefaultBrains.DefaultBrain(b.wrapX, b.wrapY, b.wrapZ, b.clusterSize)
  }

  /** Both brains clamp, contain and count cells identically, so every fact
      proved about DefaultBrain holds of CylinderBrain. */
  lemma AgreesWithDefault(b: CylinderBrain, c: ByteTrio, x: int, y: int, z: int)
    ensures b.ClampDefined(c.x, c.y, c.z) == AsDefault(b).ClampDefined(c.x, c.y, c.z)
    ensures b.ClampDefined(c.x, c.y, c.z) ==> b.Clamp(c) == AsDefault(b).Clamp(c)
    ensures b.ClampDefined(x, y, z) ==> b.ClampInts(x, y, z) == AsDefault(b).ClampInts(x, y, z)
    ensures b.ClampDefined(x, y, z) ==> b.ClampCoords(x, y, z) == AsDefault(b).ClampCoords(x, y, z)
    ensures b.Contains(c) == AsDefault(b).Contains(c)
    ensures IsExtent(b.clusterSize) ==> b.Capacity() == AsDefault(b).Capacity()
  {
  }

  /** The z upper test again compares against clusterSize.y: a wrapping z
      axis leaves an out-of-extent component in [size.z, size.y) alone. */
  lemma ZTestLeavesOutOfRange(b: CylinderBrain, x: int, y: int, z: int)
    requires b.ClampDefined(x, y, z)
    requires b.wrapZ != None && 0 <= b.clusterSize.z <= z < b.clusterSize.y
    ensures b.ClampInts(x, y, z).z == z
    ensures !InAxis(b.ClampInts(x, y, z).z, b.clusterSize.z)
  {
  }
}
