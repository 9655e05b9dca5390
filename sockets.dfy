/** The socket tables: six sides and eight corners numbered 0 to 13, the
    MIRROR table that names each socket's counterpart, the OFFSETS table of
    neighbour offsets in cluster space and OFFSET_MIRROR, each offset
    negated. The tables are constants, so they are sequences here and the
    lookups into them are functions. */
module Sockets {

  import opened Coords

  // Sides

  const SIDES: int := 6

  const UP: int := 0
  const DOWN: int := 1
  const LEFT: int := 2
  const RIGHT: int := 3
  const FRONT: int := 4
  const BACK: int := 5

  // Corners

  const CORNERS: int := 14

  const FRONT_UP_LEFT: int := 6
  const FRONT_UP_RIGHT: int := 7
  const FRONT_DOWN_LEFT: int := 8
  const FRONT_DOWN_RIGHT: int := 9
  const BACK_UP_LEFT: int := 10
  const BACK_UP_RIGHT: int := 11
  const BACK_DOWN_LEFT: int := 12
  const BACK_DOWN_RIGHT: int := 13

  /** The counterpart of every socket: sides swap with their opposite,
      every corner is listed as its own counterpart. */
  const MIRROR: seq<int> := [
    DOWN, UP, RIGHT, LEFT, BACK, FRONT,
    FRONT_UP_LEFT, FRONT_UP_RIGHT, FRONT_DOWN_LEFT, FRONT_DOWN_RIGHT,
    BACK_UP_LEFT, BACK_UP_RIGHT, BACK_DOWN_LEFT, BACK_DOWN_RIGHT
  ]

  /** int3 addition and multiplication by a scalar, component-wise. */
  function Plus(a: Int3, b: Int3): Int3 {
    Int3(a.x + b.x, a.y + b.y, a.z + b.z)
  }

  function Times(a: Int3, k: int): Int3 {
    Int3(a.x * k, a.y * k, a.z * k)
  }

  // Offsets in cluster space: z is up, y is back, x is right. Each corner
  // offset is written out; CornerOffsetsAreSums shows it is the sum of its
  // three side offsets, as the source builds it.

  const O_UP: Int3 := Int3(0, 0, 1)
  const O_DOWN: Int3 := Int3(0, 0, -1)
  const O_LEFT: Int3 := Int3(-1, 0, 0)
  const O_RIGHT: Int3 := Int3(1, 0, 0)
  const O_FRONT: Int3 := Int3(0, -1, 0)
  const O_BACK: Int3 := Int3(0, 1, 0)

  const O_FRONT_UP_LEFT: Int3 := Int3(-1, -1, 1)
  const O_FRONT_UP_RIGHT: Int3 := Int3(1, -1, 1)
  const O_FRONT_DOWN_LEFT: Int3 := Int3(-1, -1, -1)
  const O_FRONT_DOWN_RIGHT: Int3 := Int3(1, -1, -1)
  const O_BACK_UP_LEFT: Int3 := Int3(-1, 1, 1)
  const O_BACK_UP_RIGHT: Int3 := Int3(1, 1, 1)
  const O_BACK_DOWN_LEFT: Int3 := Int3(-1, 1, -1)
  const O_BACK_DOWN_RIGHT: Int3 := Int3(1, 1, -1)

  const OFFSETS: seq<Int3> := [
    O_UP, O_DOWN, O_LEFT, O_RIGHT, O_FRONT, O_BACK,
    O_FRONT_UP_LEFT, O_FRONT_UP_RIGHT, O_FRONT_DOWN_LEFT, O_FRONT_DOWN_RIGHT,
    O_BACK_UP_LEFT, O_BACK_UP_RIGHT, O_BACK_DOWN_LEFT, O_BACK_DOWN_RIGHT
  ]

  const OFFSET_MIRROR: seq<Int3> := [
    Times(O_UP, -1), Times(O_DOWN, -1), Times(O_LEFT, -1),
    Times(O_RIGHT, -1), Times(O_FRONT, -1), Times(O_BACK, -1),
    Times(O_FRONT_UP_LEFT, -1), Times(O_FRONT_UP_RIGHT, -1),
    Times(O_FRONT_DOWN_LEFT, -1), Times(O_FRONT_DOWN_RIGHT, -1),
    Times(O_BACK_UP_LEFT, -1), Times(O_BACK_UP_RIGHT, -1),
    Times(O_BACK_DOWN_LEFT, -1), Times(O_BACK_DOWN_RIGHT, -1)
  ]

  /** A valid socket number: a side or a corner. */
  predicate IsSocket(i: int) {
    0 <= i < CORNERS
  }

  predicate IsSide(i: int) {
    0 <= i < SIDES
  }

  /** The opposite side, by pairs (UP, DOWN), (LEFT, RIGHT), (FRONT, BACK):
      an independent definition of what MIRROR holds for the sides. */
  function OppositeSide(i: int): (r: int)
    requires IsSide(i)
  {
    if i % 2 == 0 then i + 1 else i - 1
  }

  /** 1 or -1: one step, either way. */
  predicate Step(a: int) {
    a == 1 || a == -1
  }

  /** A unit vector along one axis: one component is a step, the others 0. */
  predicate AxisUnit(v: Int3) {
    (Step(v.x) && v.y == 0 && v.z == 0)
    || (v.x == 0 && Step(v.y) && v.z == 0)
    || (v.x == 0 && v.y == 0 && Step(v.z))
  }

  /** A vector whose three components are each 1 or -1. */
  predicate Diagonal(v: Int3) {
    Step(v.x) && Step(v.y) && Step(v.z)
  }

  /** MIRROR[i]: a side's opposite side; a corner's own number. */
  function Mirror(i: int): (r: int)
    requires IsSocket(i)
    ensures IsSocket(r)
    ensures IsSide(i) ==> IsSide(r) && r == OppositeSide(i)
    ensures !IsSide(i) ==> r == i
  {
    MIRROR[i]
  }

  /** OFFSETS[i]: a side moves one step along one axis, a corner one step
      along each of the three. */
  function Offset(i: int): (r: Int3)
    requires IsSocket(i)
    ensures IsSide(i) ==> AxisUnit(r)
    ensures !IsSide(i) ==> Diagonal(r)
  {
    OFFSETS[i]
  }

  /** OFFSET_MIRROR[i]: the offset of socket i, negated. */
  function OffsetMirror(i: int): (r: Int3)
    requires IsSocket(i)
    ensures r == Int3(-Offset(i).x, -Offset(i).y, -Offset(i).z)
  {
    OFFSET_MIRROR[i]
  }

  /** The corner offsets are the sums the source builds them from. */
  lemma CornerOffsetsAreSums()
    ensures O_FRONT_UP_LEFT == Plus(Plus(O_FRONT, O_UP), O_LEFT)
    ensures O_FRONT_UP_RIGHT == Plus(Plus(O_FRONT, O_UP), O_RIGHT)
    ensures O_FRONT_DOWN_LEFT == Plus(Plus(O_FRONT, O_DOWN), O_LEFT)
    ensures O_FRONT_DOWN_RIGHT == Plus(Plus(O_FRONT, O_DOWN), O_RIGHT)
    ensures O_BACK_UP_LEFT == Plus(Plus(O_BACK, O_UP), O_LEFT)
    ensures O_BACK_UP_RIGHT == Plus(Plus(O_BACK, O_UP), O_RIGHT)
    ensures O_BACK_DOWN_LEFT == Plus(Plus(O_BACK, O_DOWN), O_LEFT)
    ensures O_BACK_DOWN_RIGHT == Plus(Plus(O_BACK, O_DOWN), O_RIGHT)
  {
  }

  /** The three tables have one entry per socket. */
  lemma TableSizes()
    ensures |MIRROR| == |OFFSETS| == |OFFSET_MIRROR| == CORNERS
  {
  }

  /** MIRROR is an involution on every socket. */
  lemma MirrorInvolution(i: int)
    requires IsSocket(i)
    ensures Mirror(Mirror(i)) == i
  {
  }

  /** For every side, the offset of its mirror is its mirrored offset: the
      side tables agree. */
  lemma SideMirrorOffset(i: int)
    requires IsSide(i)
    ensures Offset(Mirror(i)) == OffsetMirror(i)
  {
  }

  /** For every corner the tables disagree: MIRROR keeps the corner while
      OFFSET_MIRROR points to the diagonally opposite corner, whose number
      is 19 - i. */
  lemma CornerMirrorOffset(i: int)
    requires IsSocket(i) && !IsSide(i)
    ensures Offset(Mirror(i)) != OffsetMirror(i)
    ensures IsSocket(19 - i) && !IsSide(19 - i) && Offset(19 - i) == OffsetMirror(i)
  {
  }

  /** The fourteen offsets are pairwise distinct: every socket names a
      different neighbour. */
  lemma OffsetsDistinct(i: int, j: int)
    requires IsSocket(i) && IsSocket(j) && i != j
    ensures Offset(i) != Offset(j)
  {
  }
}
