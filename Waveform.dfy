/** The geometry `VisualizerView.onDraw` computes: for a waveform buffer of
    `n` bytes and a viewport of `width` by `height` pixels, the endpoints of
    the `n - 1` line segments joining consecutive samples, four coordinates
    per segment, and the capacity rule for the reusable `points` buffer.

    All coordinates are Java `int` expressions (only the stored result is
    widened to `float`), so they are modelled over integers with Java's
    truncating division. */
module Waveform {
  import opened JavaInt
  import opened Wrappers

  /** Number of segments the drawing loop writes: it runs for `i < n - 1`. */
  function SegmentCount(n: nat): nat
  {
    if n <= 1 then 0 else n - 1
  }

  /** x coordinate of sample `i`: `width * i / (n - 1)`. */
  function X(width: int, i: int, n: nat): int
    requires n >= 2
  {
    Div(width * i, n - 1)
  }

  /** The signed deviation drawn for a raw byte: `(byte) (b + 128)`. */
  function Amplitude(b: int8): int8
  {
    ToByte(b as int + 128)
  }

  /** y coordinate of a raw byte: `height / 2 + amplitude * (height / 2) / 128`. */
  function Y(b: int8, height: int): int
  {
    var half := Div(height, 2);
    half + Div(Amplitude(b) as int * half, 128)
  }

  /** Coordinate `slot` (x0, y0, x1, y1) of segment `i`. */
  function Coordinate(samples: seq<int8>, width: int, height: int, i: nat, slot: nat): int
    requires i < SegmentCount(|samples|) && slot < 4
  {
    if slot == 0 then X(width, i, |samples|)
    else if slot == 1 then Y(samples[i], height)
    else if slot == 2 then X(width, i + 1, |samples|)
    else Y(samples[i + 1], height)
  }

  /** The coordinates `onDraw` writes to `points[0 .. 4 * SegmentCount(n)]`, in order. */
  function Geometry(samples: seq<int8>, width: int, height: int): (g: seq<int>)
    ensures |g| == 4 * SegmentCount(|samples|)
  {
    seq(4 * SegmentCount(|samples|), k requires 0 <= k < 4 * SegmentCount(|samples|) =>
      Coordinate(samples, width, height, k / 4, k % 4))
  }

  /** The whole `points` buffer after a draw: the geometry over the front of
      `before`, with every later entry left as it was. */
  function Drawn(before: seq<int>, samples: seq<int8>, width: int, height: int): seq<int>
    requires |before| >= 4 * |samples|
  {
    var g := Geometry(samples, width, height);
    g + before[|g|..]
  }

  /** Length of `points` after a draw on `n` samples, given its previous
      length (`None` while `points` is null): grown to `4 * n` when too small,
      kept otherwise. */
  function Grown(capacity: Option<nat>, n: nat): (c: nat)
    ensures c >= 4 * n
    ensures capacity.Some? ==> c >= capacity.value
    ensures c == 4 * n || capacity == Some(c)
  {
    if capacity.None? || capacity.value < 4 * n then 4 * n else capacity.value
  }

  /** Capacity after drawing buffers of the given lengths in turn. */
  function CapacityAfter(capacity: Option<nat>, lengths: seq<nat>): Option<nat>
    decreases |lengths|
  {
    if lengths == [] then capacity
    else CapacityAfter(Some(Grown(capacity, lengths[0])), lengths[1..])
  }

  function Max(a: nat, b: nat): nat
  {
    if a < b then b else a
  }

  /** The largest of a non-empty sequence of lengths. */
  function Largest(lengths: seq<nat>): nat
    requires lengths != []
    decreases |lengths|
  {
    if |lengths| == 1 then lengths[0] else Max(lengths[0], Largest(lengths[1..]))
  }

  // ---------------------------------------------------------------------
  // Where each coordinate lands

  /** Position `4 * i + r` of a frame is slot `r` of segment `i`. */
  lemma Quarter(i: nat, r: nat)
    requires r < 4
    ensures (4 * i + r) / 4 == i && (4 * i + r) % 4 == r
  {
  }

  lemma {:induction false} GeometryAt(samples: seq<int8>, width: int, height: int, i: nat)
    requires i < SegmentCount(|samples|)
    ensures var g := Geometry(samples, width, height);
      4 * i + 3 < |g| &&
      g[4 * i] == X(width, i, |samples|) &&
      g[4 * i + 1] == Y(samples[i], height) &&
      g[4 * i + 2] == X(width, i + 1, |samples|) &&
      g[4 * i + 3] == Y(samples[i + 1], height)
  {
    var g := Geometry(samples, width, height);
    Quarter(i, 0);
    Quarter(i, 1);
    Quarter(i, 2);
    Quarter(i, 3);
    assert g[4 * i] == Coordinate(samples, width, height, i, 0);
    assert g[4 * i + 1] == Coordinate(samples, width, height, i, 1);
    assert g[4 * i + 2] == Coordinate(samples, width, height, i, 2);
    assert g[4 * i + 3] == Coordinate(samples, width, height, i, 3);
  }

  /** Consecutive segments share an endpoint, so the segments draw one connected polyline. */
  lemma {:induction false} SegmentsJoin(samples: seq<int8>, width: int, height: int, i: nat)
    requires i + 1 < SegmentCount(|samples|)
    ensures var g := Geometry(samples, width, height);
      g[4 * i + 2] == g[4 * (i + 1)] && g[4 * i + 3] == g[4 * (i + 1) + 1]
  {
    GeometryAt(samples, width, height, i);
    GeometryAt(samples, width, height, i + 1);
  }

  // ---------------------------------------------------------------------
  // The x mapping

  /** Every x coordinate lies within the viewport's width. */
  lemma {:induction false} XWithinWidth(width: int, i: int, n: nat)
    requires width >= 0 && n >= 2 && 0 <= i <= n - 1
    ensures 0 <= X(width, i, n) <= width
  {
    MulMonotone(width, 0, i);
    MulMonotone(width, i, n - 1);
    DivMonotone(0, width * i, n - 1);
    DivMonotone(width * i, width * (n - 1), n - 1);
    DivExact(0, n - 1);
    DivExact(width, n - 1);
  }

  /** x coordinates never decrease along the buffer. */
  lemma {:induction false} XMonotone(width: int, i: int, j: int, n: nat)
    requires width >= 0 && n >= 2 && i <= j
    ensures X(width, i, n) <= X(width, j, n)
  {
    MulMonotone(width, i, j);
    DivMonotone(width * i, width * j, n - 1);
  }

  /** The polyline starts at the left edge and ends exactly at the right edge. */
  lemma {:induction false} XEnds(width: int, n: nat)
    requires n >= 2
    ensures X(width, 0, n) == 0 && X(width, n - 1, n) == width
  {
    DivExact(0, n - 1);
    DivExact(width, n - 1);
  }

  // ---------------------------------------------------------------------
  // The y mapping

  /** Adding 128 and casting back to a byte flips the top bit. */
  lemma AmplitudeFlipsTopBit(b: int8)
    ensures Amplitude(b) as int == if b < 0 then b as int + 128 else b as int - 128
  {
  }

  /** Every y coordinate lies within the viewport's height. */
  lemma {:induction false} YWithinHeight(b: int8, height: int)
    requires height >= 0
    ensures 0 <= Y(b, height) <= height
  {
    var half := Div(height, 2);
    var s := Amplitude(b) as int;
    assert 0 <= half && 2 * half <= height;
    MulMonotone(half, -128, s);
    MulMonotone(half, s, 128);
    assert half * -128 == -half * 128 && s * half == half * s && half * 128 == half * 128;
    DivMonotone(-half * 128, s * half, 128);
    DivMonotone(s * half, half * 128, 128);
    DivExact(-half, 128);
    DivExact(half, 128);
  }

  /** Raw byte 0 is drawn at the top edge, raw byte -128 on the centre line. */
  lemma {:induction false} YExtremes(height: int)
    requires height >= 0
    ensures Y(0, height) == 0
    ensures Y(-128, height) == Div(height, 2)
  {
    var half := Div(height, 2);
    assert Amplitude(0) == -128 && Amplitude(-128) == 0;
    assert -128 * half == -half * 128 && 0 * half == 0 * 128;
    DivExact(-half, 128);
    DivExact(0, 128);
  }

  // ---------------------------------------------------------------------
  // Properties of a whole frame

  /** For a non-negative viewport every coordinate of a frame lies inside it,
      each segment runs left to right, and the frame spans the full width. */
  lemma {:induction false} GeometryInViewport(samples: seq<int8>, width: int, height: int)
    requires width >= 0 && height >= 0
    ensures var g := Geometry(samples, width, height);
      (forall i :: 0 <= i < SegmentCount(|samples|) ==>
        0 <= g[4 * i] <= g[4 * i + 2] <= width &&
        0 <= g[4 * i + 1] <= height && 0 <= g[4 * i + 3] <= height) &&
      (|samples| >= 2 ==> g[0] == 0 && g[|g| - 2] == width)
  {
    var g := Geometry(samples, width, height);
    var n := |samples|;
    forall i | 0 <= i < SegmentCount(n)
      ensures 0 <= g[4 * i] <= g[4 * i + 2] <= width
      ensures 0 <= g[4 * i + 1] <= height && 0 <= g[4 * i + 3] <= height
    {
      GeometryAt(samples, width, height, i);
      XWithinWidth(width, i, n);
      XWithinWidth(width, i + 1, n);
      XMonotone(width, i, i + 1, n);
      YWithinHeight(samples[i], height);
      YWithinHeight(samples[i + 1], height);
    }
    if n >= 2 {
      GeometryAt(samples, width, height, 0);
      GeometryAt(samples, width, height, n - 2);
      XEnds(width, n);
    }
  }

  /** A buffer of at most one byte yields no segment at all. */
  lemma ShortBufferDrawsNothing(samples: seq<int8>, width: int, height: int)
    requires |samples| <= 1
    ensures Geometry(samples, width, height) == []
  {
  }

  /** A draw leaves every entry past the geometry as it was, including stale
      coordinates from an earlier, longer buffer. */
  lemma {:induction false} DrawnKeepsTail(before: seq<int>, samples: seq<int8>, width: int, height: int)
    requires |before| >= 4 * |samples|
    ensures var after := Drawn(before, samples, width, height);
      |after| == |before| &&
      after[..4 * SegmentCount(|samples|)] == Geometry(samples, width, height) &&
      forall k :: 4 * SegmentCount(|samples|) <= k < |before| ==> after[k] == before[k]
  {
  }

  /** Drawing the same buffer into the same viewport a second time changes nothing. */
  lemma {:induction false} DrawnIdempotent(before: seq<int>, samples: seq<int8>, width: int, height: int)
    requires |before| >= 4 * |samples|
    ensures Drawn(Drawn(before, samples, width, height), samples, width, height)
         == Drawn(before, samples, width, height)
  {
    var g := Geometry(samples, width, height);
    var once := Drawn(before, samples, width, height);
    assert once[..|g|] == g;
    assert once[|g|..] == before[|g|..];
  }

  // ---------------------------------------------------------------------
  // Capacity

  /** Capacity only grows: after a run of buffers it is four times the largest length seen,
      or the starting capacity if that was larger. */
  lemma {:induction false} CapacityAfterIsLargest(capacity: Option<nat>, lengths: seq<nat>)
    requires lengths != []
    ensures CapacityAfter(capacity, lengths)
         == Some(if capacity.Some? then Max(capacity.value, 4 * Largest(lengths)) else 4 * Largest(lengths))
    decreases |lengths|
  {
    if |lengths| > 1 {
      CapacityAfterIsLargest(Some(Grown(capacity, lengths[0])), lengths[1..]);
    }
  }

  /** Buffers of 10, 50 and 20 bytes leave a capacity of 200: it never shrinks back. */
  lemma CapacityExample()
    ensures CapacityAfter(None, [10, 50, 20]) == Some(200)
  {
    CapacityAfterIsLargest(None, [10, 50, 20]);
  }
}
