/** Linear indexing of the dense (fixed) cluster: the axis orders, the line
    and plane strides the planeOrder setter derives from an extent, the six
    per-order index formulas, and IndexOf, which clamps through the brain and
    then always applies the x-fastest formula with whatever strides are set. */
module FixedIndexing {

  import opened Arith
  import opened Coords
  import opened Wrapping
  import opened DefaultBrains

  /** AxisOrder: the order in which the axes are laid out, fastest first. */
  datatype AxisOrder = XYZ | XZY | YXZ | YZX | ZXY | ZYX

  /** The line and plane lengths of an axis order. */
  datatype Strides = Strides(line: int, plane: int)

  /** The component of c along an axis: 0 for x, 1 for y, 2 for z. */
  function Component(c: ByteTrio, axis: int): int {
    if axis == 0 then c.x else if axis == 1 then c.y else c.z
  }

  /** The axis an order lays out fastest (within a line). */
  function FastAxis(order: AxisOrder): int {
    match order
    case XYZ => 0 case XZY => 0 case YXZ => 1
    case YZX => 1 case ZXY => 2 case ZYX => 2
  }

  /** The axis an order steps along lines (within a plane). */
  function LineAxis(order: AxisOrder): int {
    match order
    case XYZ => 1 case XZY => 2 case YXZ => 0
    case YZX => 2 case ZXY => 0 case ZYX => 1
  }

  /** The axis an order steps across planes. */
  function PlaneAxis(order: AxisOrder): int {
    match order
    case XYZ => 2 case XZY => 1 case YXZ => 2
    case YZX => 0 case ZXY => 1 case ZYX => 0
  }

  /** The planeOrder setter: the fastest axis's size is the line length, the
      line length times the middle axis's size is the plane length. */
  function StridesOf(order: AxisOrder, s: ByteTrio): (r: Strides)
    ensures r.line == Component(s, FastAxis(order))
    ensures r.plane == Component(s, LineAxis(order)) * r.line
    ensures IsExtent(s) ==> r.line >= 0 && r.plane >= 0
  {
    match order
    case XZY => Strides(s.x, s.z * s.x)
    case YXZ => Strides(s.y, s.x * s.y)
    case YZX => Strides(s.y, s.z * s.y)
    case ZXY => Strides(s.z, s.x * s.z)
    case ZYX => Strides(s.z, s.y * s.z)
    case XYZ => Strides(s.x, s.y * s.x)
  }

  /** The index delegates d_indexOfXYZ ... d_indexOfZYX: the fastest axis
      first, then the line axis, then the plane axis. */
  function DelegateIndex(order: AxisOrder, c: ByteTrio, st: Strides): (r: int)
    ensures r == Component(c, FastAxis(order)) + st.line * Component(c, LineAxis(order))
                 + st.plane * Component(c, PlaneAxis(order))
    ensures order == XYZ ==> r == LinearIndex(c, st)
  {
    match order
    case XYZ => c.x + st.line * c.y + st.plane * c.z
    case XZY => c.x + st.line * c.z + st.plane * c.y
    case YXZ => c.y + st.line * c.x + st.plane * c.z
    case YZX => c.y + st.line * c.z + st.plane * c.x
    case ZXY => c.z + st.line * c.x + st.plane * c.y
    case ZYX => c.z + st.line * c.y + st.plane * c.x
  }

  /** Each delegate, with the strides its order sets, sends the extent into
      [0, Volume) and distinct coordinates to distinct indices: every order
      is a valid layout of the dense array. */
  lemma {:induction false} DelegateIsLayout(order: AxisOrder, s: ByteTrio, c: ByteTrio, c': ByteTrio)
    requires InExtent(c, s) && InExtent(c', s)
    ensures 0 <= DelegateIndex(order, c, StridesOf(order, s)) < Volume(s)
    ensures DelegateIndex(order, c, StridesOf(order, s)) == DelegateIndex(order, c', StridesOf(order, s)) ==> c == c'
  {
    VolumePermutations(s.x, s.y, s.z);
    match order
    case XYZ => Digits(c.x, c.y, c.z, c'.x, c'.y, c'.z, s.x, s.y, s.z);
    case XZY => Digits(c.x, c.z, c.y, c'.x, c'.z, c'.y, s.x, s.z, s.y);
    case YXZ => Digits(c.y, c.x, c.z, c'.y, c'.x, c'.z, s.y, s.x, s.z);
    case YZX => Digits(c.y, c.z, c.x, c'.y, c'.z, c'.x, s.y, s.z, s.x);
    case ZXY => Digits(c.z, c.x, c.y, c'.z, c'.x, c'.y, s.z, s.x, s.y);
    case ZYX => Digits(c.z, c.y, c.x, c'.z, c'.y, c'.x, s.z, s.y, s.x);
  }

  /** Bounds and injectivity of one three-digit mixed-radix layout. */
  lemma Digits(a: int, b: int, c: int, a': int, b': int, c': int, ra: int, rb: int, rc: int)
    requires 0 <= a < ra && 0 <= b < rb && 0 <= c < rc
    requires 0 <= a' < ra && 0 <= b' < rb && 0 <= c' < rc
    ensures 0 <= a + ra * b + (rb * ra) * c < (ra * rb) * rc
    ensures a + ra * b + (rb * ra) * c == a' + ra * b' + (rb * ra) * c' ==> a == a' && b == b' && c == c'
  {
    MixedRadixBounds(a, b, c, ra, rb, rc);
    if a + ra * b + (rb * ra) * c == a' + ra * b' + (rb * ra) * c' {
      MixedRadixInjective(a, b, c, a', b', c', ra, rb);
    }
  }

  /** The product of three sizes does not depend on their order. */
  lemma VolumePermutations(x: int, y: int, z: int)
    ensures (x * y) * z == (x * z) * y == (y * x) * z == (y * z) * x == (z * x) * y == (z * y) * x
  {
    assert (x * y) * z == x * (y * z);
    assert (x * z) * y == x * (z * y);
  }

  /** The index formula IndexOf and Fill apply: x + line * y + plane * z,
      whatever the axis order the strides came from. */
  function LinearIndex(c: ByteTrio, st: Strides): int {
    c.x + st.line * c.y + st.plane * c.z
  }

  /** IndexOf: clamp through the brain, reject with -1 what the brain does
      not contain, otherwise apply the x-fastest formula. */
  function IndexOfWith(b: DefaultBrain, st: Strides, coord: ByteTrio): (r: int)
    requires b.ClampDefined(coord.x, coord.y, coord.z)
    ensures st.line >= 0 && st.plane >= 0 ==> (r == -1 <==> !b.Contains(b.Clamp(coord)))
    ensures r != -1 ==> r == LinearIndex(b.Clamp(coord), st) && b.Contains(b.Clamp(coord))
    ensures st.line >= 0 && st.plane >= 0 ==> r >= -1
  {
    var c := b.Clamp(coord);
    if !b.Contains(c) then -1
    else
      assert st.line >= 0 && st.plane >= 0 ==> LinearIndex(c, st) >= 0 by {
        if st.line >= 0 && st.plane >= 0 {
          ClampedContainedNonNegative(b, coord);
          MulMono(st.line, 0, c.y);
          MulMono(st.plane, 0, c.z);
        }
      }
      LinearIndex(c, st)
  }

  /** Only the XYZ order's delegate is the formula IndexOf applies. */
  lemma LinearIndexIsXYZDelegate(c: ByteTrio, st: Strides)
    ensures LinearIndex(c, st) == DelegateIndex(XYZ, c, st)
  {
  }

  /** The brain leaves a dense cluster's cells where they are: the brain's
      extent is the cluster's, fits a byte per axis, and a clamping z axis is
      no taller than the bound clusterSize.y its upper test uses. */
  predicate ClampKeepsExtent(b: DefaultBrain, s: ByteTrio) {
    b.clusterSize == s && IsByteExtent(s) && (b.wrapZ != Clamp || s.z <= s.y)
  }

  /** With XYZ strides and a brain that keeps the extent, IndexOf of an
      in-extent coordinate is its XYZ index: it lies in [0, Volume) and
      distinct coordinates get distinct cells. */
  lemma {:induction false} IndexOfIsXYZ(b: DefaultBrain, s: ByteTrio, c: ByteTrio)
    requires ClampKeepsExtent(b, s) && InExtent(c, s)
    ensures b.ClampDefined(c.x, c.y, c.z)
    ensures IndexOfWith(b, StridesOf(XYZ, s), c) == XYZIndex(c, s)
    ensures 0 <= IndexOfWith(b, StridesOf(XYZ, s), c) < Volume(s)
  {
    ClampIdentityOnExtent(b, c);
    ContainsExtent(b, c);
    XYZIndexInRange(c, s);
  }

  /** Whatever the axis order, a brain that keeps the extent makes IndexOf
      of an in-extent coordinate the very cell x + line * y + plane * z that
      Fill reads: the two differ only when the clamp moves an in-extent
      coordinate. */
  lemma {:induction false} IndexOfIsFillIndex(b: DefaultBrain, st: Strides, c: ByteTrio)
    requires ClampKeepsExtent(b, b.clusterSize) && InExtent(c, b.clusterSize)
    ensures b.ClampDefined(c.x, c.y, c.z)
    ensures IndexOfWith(b, st, c) == LinearIndex(c, st)
  {
    ClampIdentityOnExtent(b, c);
    ContainsExtent(b, c);
  }

  /** IndexOf with XYZ strides is injective on the extent. */
  lemma IndexOfInjective(b: DefaultBrain, s: ByteTrio, c: ByteTrio, c': ByteTrio)
    requires ClampKeepsExtent(b, s) && InExtent(c, s) && InExtent(c', s)
    requires IndexOfWith(b, StridesOf(XYZ, s), c) == IndexOfWith(b, StridesOf(XYZ, s), c')
    ensures c == c'
  {
    IndexOfIsXYZ(b, s, c);
    IndexOfIsXYZ(b, s, c');
    XYZIndexInjective(c, c', s);
  }

  /** Because IndexOf keeps the x-fastest formula, another order's strides
      can send an in-extent coordinate past the end of the array: with YXZ
      strides on a 2 x 3 x 1 extent, (0, 2, 0) gets index 6 = Volume. */
  lemma OtherOrderOverruns()
    ensures var s := ByteTrio(2, 3, 1);
      var b := DefaultBrain(None, None, None, s);
      InExtent(ByteTrio(0, 2, 0), s)
      && IndexOfWith(b, StridesOf(YXZ, s), ByteTrio(0, 2, 0)) == 6 == Volume(s)
  {
  }

  /** Because the z upper test uses clusterSize.y, a clamping z axis taller
      than y folds distinct cells together: on a 1 x 1 x 3 extent, (0, 0, 1)
      and (0, 0, 2) both get index 2. */
  lemma ClampZCollision()
    ensures var s := ByteTrio(1, 1, 3);
      var b := DefaultBrain(None, None, Clamp, s);
      InExtent(ByteTrio(0, 0, 1), s) && InExtent(ByteTrio(0, 0, 2), s)
      && IndexOfWith(b, StridesOf(XYZ, s), ByteTrio(0, 0, 1)) == 2
      && IndexOfWith(b, StridesOf(XYZ, s), ByteTrio(0, 0, 2)) == 2
  {
  }
}
