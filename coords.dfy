/** Lattice coordinates, extents and the integer facts about linear indexing
    that the storage strategies rely on. The repository's ByteTrio and int3
    value types are not part of this model; both are represented here as
    triples of unbounded integers. */
module Coords {

  import opened Arith

  /** A lattice coordinate or a lattice extent (the repository's ByteTrio). */
  datatype ByteTrio = ByteTrio(x: int, y: int, z: int)

  /** A signed integer triple (int3): size differences and neighbour offsets. */
  datatype Int3 = Int3(x: int, y: int, z: int)

  /** ByteTrio.zero */
  const Zero: ByteTrio := ByteTrio(0, 0, 0)

  /** An extent never has a negative component. */
  predicate IsExtent(s: ByteTrio) {
    0 <= s.x && 0 <= s.y && 0 <= s.z
  }

  /** The explicit assumption that every component fits the byte range
      ByteTrio is named after. */
  predicate IsByteExtent(s: ByteTrio) {
    IsExtent(s) && s.x < 256 && s.y < 256 && s.z < 256
  }

  /** ByteTrio.Volume(): the product of the three components. */
  function Volume(s: ByteTrio): (v: int)
    ensures IsExtent(s) ==> v >= 0
    ensures IsExtent(s) && v > 0 ==> s.x > 0 && s.y > 0 && s.z > 0
  {
    assert IsExtent(s) ==> (s.x * s.y) * s.z >= 0 by {
      if IsExtent(s) {
        MulMono(s.x, 0, s.y);
        MulMono(s.x * s.y, 0, s.z);
      }
    }
    (s.x * s.y) * s.z
  }

  /** c lies in the box [0, s.x) x [0, s.y) x [0, s.z). */
  predicate InExtent(c: ByteTrio, s: ByteTrio) {
    0 <= c.x < s.x && 0 <= c.y < s.y && 0 <= c.z < s.z
  }

  /** Linear index with x running fastest, then y, then z: the stride layout
      of the XYZ axis order (line length s.x, plane length s.y * s.x). */
  function XYZIndex(c: ByteTrio, s: ByteTrio): int {
    c.x + s.x * c.y + (s.y * s.x) * c.z
  }

  /** c is visited strictly before the cursor (x, y, z) by a walk whose
      outer loop runs over z, middle loop over y and inner loop over x. */
  predicate WalkedBefore(c: ByteTrio, x: int, y: int, z: int) {
    c.z < z || (c.z == z && (c.y < y || (c.y == y && c.x < x)))
  }

  /** The set of coordinates of an extent: the cells a cluster can address. */
  function ExtentCoords(s: ByteTrio): set<ByteTrio> {
    set x, y, z | 0 <= x < s.x && 0 <= y < s.y && 0 <= z < s.z :: ByteTrio(x, y, z)
  }

  /** Distinct coordinates of an extent have distinct XYZ indices. */
  lemma XYZIndexInjectiveNot(c: ByteTrio, c': ByteTrio, s: ByteTrio)
    requires InExtent(c, s) && InExtent(c', s) && c != c'
    ensures XYZIndex(c, s) != XYZIndex(c', s)
  {
    if XYZIndex(c, s) == XYZIndex(c', s) {
      XYZIndexInjective(c, c', s);
    }
  }

  /** A three-digit mixed-radix number a + A*b + (B*A)*c with digits in range
      lies in [0, A*B*C). */
  lemma {:induction false} MixedRadixBounds(a: int, b: int, c: int, ra: int, rb: int, rc: int)
    requires 0 <= a < ra && 0 <= b < rb && 0 <= c < rc
    ensures 0 <= a + ra * b + (rb * ra) * c < (ra * rb) * rc
  {
    assert 0 <= ra * b <= ra * (rb - 1);
    assert ra * (rb - 1) == ra * rb - ra;
    assert a + ra * b < ra * rb;
    assert 0 <= (rb * ra) * c <= (rb * ra) * (rc - 1);
    assert (rb * ra) * (rc - 1) == (ra * rb) * rc - ra * rb;
  }

  /** Two mixed-radix numbers with digits in range are equal only when their
      digits are. */
  lemma {:induction false} MixedRadixInjective(a: int, b: int, c: int, a': int, b': int, c': int, ra: int, rb: int)
    requires 0 <= a < ra && 0 <= b < rb && 0 <= a' < ra && 0 <= b' < rb
    requires a + ra * b + (rb * ra) * c == a' + ra * b' + (rb * ra) * c'
    ensures a == a' && b == b' && c == c'
  {
    var q, q' := b + rb * c, b' + rb * c';
    Distribute(ra, b, rb, c);
    Distribute(ra, b', rb, c');
    assert a + ra * q == a' + ra * q';
    assert a - a' == ra * (q' - q);
    SmallMultiple(ra, q' - q);
    assert b - b' == rb * (c' - c);
    SmallMultiple(rb, c' - c);
  }

  /** The XYZ linear index sends the extent into [0, Volume) ... */
  lemma XYZIndexInRange(c: ByteTrio, s: ByteTrio)
    requires InExtent(c, s)
    ensures 0 <= XYZIndex(c, s) < Volume(s)
  {
    MixedRadixBounds(c.x, c.y, c.z, s.x, s.y, s.z);
  }

  /** ... and distinct coordinates of the extent to distinct indices. */
  lemma XYZIndexInjective(c: ByteTrio, c': ByteTrio, s: ByteTrio)
    requires InExtent(c, s) && InExtent(c', s)
    requires XYZIndex(c, s) == XYZIndex(c', s)
    ensures c == c'
  {
    MixedRadixInjective(c.x, c.y, c.z, c'.x, c'.y, c'.z, s.x, s.y);
  }

  /** ... and every index of [0, Volume) is reached by a coordinate of the
      extent: x = i mod s.x, y = (i div s.x) mod s.y, z = i div (s.x s.y). */
  lemma {:induction false} XYZIndexOnto(i: int, s: ByteTrio)
    requires IsExtent(s) && 0 <= i < Volume(s)
    ensures InExtent(XYZDecode(i, s), s) && XYZIndex(XYZDecode(i, s), s) == i
  {
    var sx, sy, sz := s.x, s.y, s.z;
    assert sx > 0 && sy > 0;
    var q := i / sx;
    var x, y, z := i % sx, q % sy, q / sy;
    assert i == x + sx * q;
    assert q == y + sy * z;
    Distribute(sx, y, sy, z);
    assert i == x + sx * y + (sy * sx) * z;
    assert q >= 0 && z >= 0;
    if z >= sz {
      MulMono(sy * sx, sz, z);
      assert false;
    }
    assert XYZDecode(i, s) == ByteTrio(x, y, z);
  }

  /** Decoding the XYZ index of an in-extent coordinate gives it back. */
  lemma DecodeIndex(c: ByteTrio, s: ByteTrio)
    requires InExtent(c, s)
    ensures s.x > 0 && s.y > 0
    ensures 0 <= XYZIndex(c, s) < Volume(s)
    ensures XYZDecode(XYZIndex(c, s), s) == c
  {
    XYZIndexInRange(c, s);
    XYZIndexOnto(XYZIndex(c, s), s);
    XYZIndexInjective(XYZDecode(XYZIndex(c, s), s), c, s);
  }

  /** The coordinate whose XYZ index is i. */
  function XYZDecode(i: int, s: ByteTrio): ByteTrio
    requires s.x > 0 && s.y > 0
  {
    ByteTrio(i % s.x, (i / s.x) % s.y, (i / s.x) / s.y)
  }

  /** One line of an extent: the n coordinates (0..n-1, y, z). */
  function LineCoords(n: int, y: int, z: int): set<ByteTrio> {
    set x | 0 <= x < n :: ByteTrio(x, y, z)
  }

  /** One plane of an extent: the coordinates (0..nx-1, 0..ny-1, z). */
  function PlaneCoords(nx: int, ny: int, z: int): set<ByteTrio> {
    set x, y | 0 <= x < nx && 0 <= y < ny :: ByteTrio(x, y, z)
  }

  lemma {:induction false} LineCount(n: nat, y: int, z: int)
    ensures |LineCoords(n, y, z)| == n
  {
    if n > 0 {
      LineCount(n - 1, y, z);
      assert LineCoords(n, y, z) == LineCoords(n - 1, y, z) + {ByteTrio(n - 1, y, z)};
    } else {
      assert LineCoords(n, y, z) == {};
    }
  }

  lemma {:induction false} PlaneCount(nx: nat, ny: nat, z: int)
    ensures |PlaneCoords(nx, ny, z)| == nx * ny
  {
    if ny > 0 {
      PlaneCount(nx, ny - 1, z);
      LineCount(nx, ny - 1, z);
      PlaneSplit(nx, ny, z);
      assert nx * ny == nx * (ny - 1) + nx;
    } else {
      assert PlaneCoords(nx, ny, z) == {};
    }
  }

  lemma PlaneSplit(nx: int, ny: int, z: int)
    requires ny > 0
    ensures PlaneCoords(nx, ny, z) == PlaneCoords(nx, ny - 1, z) + LineCoords(nx, ny - 1, z)
    ensures PlaneCoords(nx, ny - 1, z) !! LineCoords(nx, ny - 1, z)
  {
  }

  lemma BoxSplit(nx: int, ny: int, nz: int)
    requires nz > 0
    ensures ExtentCoords(ByteTrio(nx, ny, nz)) == ExtentCoords(ByteTrio(nx, ny, nz - 1)) + PlaneCoords(nx, ny, nz - 1)
    ensures ExtentCoords(ByteTrio(nx, ny, nz - 1)) !! PlaneCoords(nx, ny, nz - 1)
  {
  }

  lemma {:induction false} BoxCount(nx: nat, ny: nat, nz: nat)
    ensures |ExtentCoords(ByteTrio(nx, ny, nz))| == (nx * ny) * nz
  {
    if nz > 0 {
      BoxCount(nx, ny, nz - 1);
      PlaneCount(nx, ny, nz - 1);
      BoxSplit(nx, ny, nz);
      assert (nx * ny) * nz == (nx * ny) * (nz - 1) + nx * ny;
    } else {
      assert ExtentCoords(ByteTrio(nx, ny, nz)) == {};
    }
  }

  /** The volume of an extent is the number of coordinates it addresses:
      the meaning of a brain's and a cluster's Capacity. */
  lemma VolumeCountsCoords(s: ByteTrio)
    requires IsExtent(s)
    ensures |ExtentCoords(s)| == Volume(s)
    ensures forall c :: c in ExtentCoords(s) <==> InExtent(c, s)
  {
    BoxCount(s.x, s.y, s.z);
  }
}
