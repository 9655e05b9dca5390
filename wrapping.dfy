/** The per-axis wrap policy shared, line for line, by every Clamp overload of
    both brains. One axis is described by its mode, the bound its upper test
    compares against and the size its LOOP and clamp branches use; for x and y
    the bound is the size, for z the source compares against clusterSize.y. */
module Wrapping {

  import opened Arith

  /** WrapMode: NONE leaves an axis alone, LOOP wraps it, every other mode
      clamps it. */
  datatype WrapMode = None | Loop | Clamp

  /** C#'s integer remainder by a positive divisor: truncating division, so
      the result takes the sign of the dividend. Related here to Dafny's own
      Euclidean % : they agree on non-negative dividends and differ by n on
      negative dividends that are not multiples of n. */
  function TruncMod(a: int, n: int): (r: int)
    requires n > 0
    ensures a >= 0 ==> 0 <= r < n && r == a % n
    ensures a < 0 ==> -n < r <= 0 && r == (if a % n == 0 then 0 else a % n - n)
  {
    if a >= 0 then a % n
    else
      var s := (-a) % n;
      var q := (-a) / n;
      assert a % n == (if s == 0 then 0 else n - s) by {
        if s == 0 {
          DivModUnique(a, n, -q, 0);
        } else {
          DivModUnique(a, n, -q - 1, n - s);
        }
      }
      -s
  }

  /** C#'s (byte) conversion of an int: keeps the low eight bits. */
  function ToByte(v: int): (b: int)
    ensures 0 <= b < 256
    ensures (v - b) % 256 == 0
  {
    v % 256
  }

  /** A LOOP axis with size 0 divides by zero as soon as the component is
      rewritten; this is the condition under which an axis can be processed. */
  predicate WrapDefined(c: int, mode: WrapMode, bound: int, size: int) {
    mode != Loop || size > 0 || (0 <= c < bound)
  }

  /** The axis is rewritten by Clamp: its mode is not NONE and the component
      falls below zero or at or above the bound. */
  predicate Rewrites(c: int, mode: WrapMode, bound: int) {
    mode != None && (c < 0 || c >= bound)
  }

  /** The per-axis body of Clamp(ref int x, ref int y, ref int z): the
      reference definition, without byte conversions. */
  function WrapAxis(c: int, mode: WrapMode, bound: int, size: int): (r: int)
    requires WrapDefined(c, mode, bound, size)
    ensures !Rewrites(c, mode, bound) ==> r == c
    ensures mode == Clamp && c < 0 ==> r == 0
    ensures mode == Clamp && 0 <= c && c >= bound ==> r == size - 1
    ensures mode == Loop && 0 <= c && c >= bound ==> 0 <= r < size && r == c % size
    ensures mode == Loop && c < 0 ==> 0 < r <= size && r == (if c % size == 0 then size else c % size)
  {
    if mode == None then c
    else if c < 0 then (if mode == Loop then size + TruncMod(c, size) else 0)
    else if c >= bound then (if mode == Loop then TruncMod(c, size) else size - 1)
    else c
  }

  /** The per-axis body of the ByteTrio overloads of Clamp: each rewritten
      component goes through a (byte) conversion, untouched ones do not. */
  function WrapAxisByte(c: int, mode: WrapMode, bound: int, size: int): (r: int)
    requires WrapDefined(c, mode, bound, size)
    ensures !Rewrites(c, mode, bound) ==> r == c
    ensures Rewrites(c, mode, bound) ==> 0 <= r < 256
    ensures Rewrites(c, mode, bound) ==> (WrapAxis(c, mode, bound, size) - r) % 256 == 0
  {
    if Rewrites(c, mode, bound) then ToByte(WrapAxis(c, mode, bound, size)) else c
  }

  /** The component lies inside [0, size). */
  predicate InAxis(c: int, size: int) {
    0 <= c < size
  }

  /** Whenever the rewritten value of the reference definition is already a
      byte, the byte conversion changes nothing; with 1 <= size <= 255 it
      always is. */
  lemma ByteCastAgrees(c: int, mode: WrapMode, bound: int, size: int)
    requires WrapDefined(c, mode, bound, size)
    requires 1 <= size <= 255 && 0 <= bound
    ensures WrapAxisByte(c, mode, bound, size) == WrapAxis(c, mode, bound, size)
  {
    if Rewrites(c, mode, bound) {
      var w := WrapAxis(c, mode, bound, size);
      assert 0 <= w <= size;
      assert ToByte(w) == w;
    }
  }

  /** An in-range component is kept by both definitions, unless a clamping
      axis's bound lies at or below it. */
  lemma WrapByteKeepsInAxis(c: int, mode: WrapMode, bound: int, size: int)
    requires InAxis(c, size) && size <= 256 && 0 <= bound
    requires mode == Clamp ==> c < bound
    ensures WrapDefined(c, mode, bound, size)
    ensures WrapAxis(c, mode, bound, size) == c
    ensures WrapAxisByte(c, mode, bound, size) == c
  {
    if mode == Loop && c >= bound {
      DivModUnique(c, size, 0, c);
      assert ToByte(c) == c;
    }
  }

  /** With size 0 a clamping axis yields size - 1 = -1, which the byte
      conversion turns into 255: the two families of overloads disagree. */
  lemma ByteCastDiffersAtSizeZero()
    ensures WrapAxis(3, Clamp, 0, 0) == -1
    ensures WrapAxisByte(3, Clamp, 0, 0) == 255
  {
  }

  /** A LOOP axis sends every negative multiple of its size to the size
      itself, one past the last in-range value. */
  lemma {:induction false} LoopNegativeMultiple(k: int, size: int)
    requires size > 0 && k > 0
    ensures WrapAxis(-k * size, Loop, size, size) == size
    ensures !InAxis(WrapAxis(-k * size, Loop, size, size), size)
  {
    DivModUnique(-k * size, size, -k, 0);
  }

  /** On an axis whose bound is its size, the rewritten component lies in
      range, except for the LOOP image of a negative multiple of the size. */
  lemma WrapLandsInAxis(c: int, mode: WrapMode, size: int)
    requires size > 0
    requires mode != None
    requires !(mode == Loop && c < 0 && c % size == 0)
    ensures InAxis(WrapAxis(c, mode, size, size), size)
  {
  }

  /** Clamping is idempotent on an axis whose bound is its size, whenever
      the first pass lands in range. */
  lemma WrapIdempotentInAxis(c: int, mode: WrapMode, size: int)
    requires size > 0
    requires InAxis(WrapAxis(c, mode, size, size), size) || mode == None
    ensures WrapAxis(WrapAxis(c, mode, size, size), mode, size, size) == WrapAxis(c, mode, size, size)
  {
  }

  /** ... but not in general: a negative multiple of the size becomes the
      size, which a second pass then wraps to 0. */
  lemma LoopNotIdempotent(size: int)
    requires size > 0
    ensures WrapAxis(-size, Loop, size, size) == size
    ensures WrapAxis(WrapAxis(-size, Loop, size, size), Loop, size, size) == 0
  {
    assert (-size) % size == 0 by { assert -size == (-1) * size; }
    assert size % size == 0;
  }
}
