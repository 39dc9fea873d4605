/** The waveform view (`VisualizerView`): it keeps the latest captured byte
    buffer, turns it into line-segment endpoints in a reusable `points`
    buffer on every draw, and holds at most one platform capture session. */
module Visualizer {
  import opened JavaInt
  import opened Wrappers
  import opened Waveform

  /** An `android.media.audiofx.Visualizer` bound to one audio session.  The
      platform object is opaque; the model keeps only whether capture is
      enabled and whether the handle has been released. */
  class CaptureSession {
    const sessionId: int
    var enabled: bool
    var released: bool

    constructor (sessionId: int)
      ensures this.sessionId == sessionId && !enabled && !released
    {
      this.sessionId := sessionId;
      enabled := false;
      released := false;
    }

    method SetEnabled(on: bool)
      modifies this
      ensures enabled == on && released == old(released)
    {
      enabled := on;
    }

    method Release()
      modifies this
      ensures released && enabled == old(enabled)
    {
      released := true;
    }
  }

  /** A zero-filled buffer, as Java's `new float[n]` is. */
  function Zeros(n: nat): (z: seq<int>)
    ensures |z| == n && forall k :: 0 <= k < n ==> z[k] == 0
  {
    seq(n, _ => 0)
  }

  class VisualizerView {
    /** The latest captured waveform, `None` until the first capture. */
    var bytes: Option<seq<int8>>
    /** The reusable geometry buffer, null until the first draw. */
    var points: array?<int>
    /** The capture session currently held, if any. */
    var visualizer: CaptureSession?
    /** Every capture session this view has opened, oldest first. */
    ghost var Sessions: seq<CaptureSession>

    /** Every session but the newest is released, and the newest is
        unreleased exactly when the view still holds it. */
    ghost predicate Valid()
      reads this, Sessions
    {
      (forall k :: 0 <= k < |Sessions| - 1 ==> Sessions[k].released) &&
      (visualizer == null ==> Sessions == [] || Sessions[|Sessions| - 1].released) &&
      (visualizer != null ==>
        Sessions != [] && visualizer == Sessions[|Sessions| - 1] && !visualizer.released)
    }

    /** The sessions opened by this view that the platform still holds. */
    ghost function Live(): set<CaptureSession>
      reads this, Sessions
    {
      set s | s in Sessions && !s.released
    }

    /** The length of `points`, `None` while it is null. */
    function Capacity(): Option<nat>
      reads this
    {
      if points == null then None else Some(points.Length)
    }

    /** A view never holds more than one live capture session: the one in its slot. */
    lemma AtMostOneLive()
      requires Valid()
      ensures Live() == if visualizer == null then {} else {visualizer}
      ensures |Live()| <= 1
    {
      var last := |Sessions| - 1;
      forall s | s in Live()
        ensures s == visualizer
      {
        var k :| 0 <= k < |Sessions| && Sessions[k] == s;
        assert k == last;
      }
    }

    constructor ()
      ensures Valid()
      ensures bytes == None && points == null && visualizer == null && Sessions == []
    {
      bytes := None;
      points := null;
      visualizer := null;
      Sessions := [];
    }

    /** Binds the view to an audio session: releases the session held before,
        if any, then opens a new one and enables capture on it. */
    method SetAudioSessionId(sessionId: int)
      requires Valid()
      modifies this, visualizer
      ensures Valid()
      ensures fresh(visualizer) && visualizer.sessionId == sessionId && visualizer.enabled
      ensures Sessions == old(Sessions) + [visualizer]
      ensures old(visualizer) != null ==>
        old(visualizer).released && old(visualizer).enabled == old(visualizer.enabled)
      ensures Live() == {visualizer}
      ensures bytes == old(bytes) && points == old(points)
    {
      if visualizer != null {
        visualizer.Release();
      }
      var v := new CaptureSession(sessionId);
      visualizer := v;
      Sessions := Sessions + [v];
      v.SetEnabled(true);
      AtMostOneLive();
    }

    /** Disables and releases the held session and empties the slot; does
        nothing when the slot is already empty. */
    method Release()
      requires Valid()
      modifies this, visualizer
      ensures Valid() && visualizer == null && Sessions == old(Sessions)
      ensures old(visualizer) != null ==> old(visualizer).released && !old(visualizer).enabled
      ensures old(visualizer) == null ==> unchanged(this)
      ensures Live() == {}
      ensures bytes == old(bytes) && points == old(points)
    {
      if visualizer != null {
        visualizer.SetEnabled(false);
        visualizer.Release();
        visualizer := null;
      }
      AtMostOneLive();
    }

    /** A capture callback: the new buffer replaces the stored one, whatever it was. */
    method UpdateVisualizer(data: seq<int8>)
      modifies this`bytes
      ensures bytes == Some(data)
    {
      bytes := Some(data);
    }

    /** One draw pass over a `width` by `height` viewport.  With no buffer yet
        nothing is touched.  Otherwise `points` is replaced by a zero-filled
        array of `4 * n` entries when it is missing or shorter than that, and
        the geometry of the stored buffer is written over its front. */
    method OnDraw(width: int, height: int)
      requires width >= 0 && height >= 0
      modifies this`points, points
      ensures bytes.None? ==> points == old(points) && (points != null ==> unchanged(points))
      ensures bytes.Some? ==> points != null && points.Length == Grown(old(Capacity()), |bytes.value|)
      ensures bytes.Some? && old(points) != null && old(points).Length >= 4 * |bytes.value| ==>
        points == old(points) && points[..] == Drawn(old(points[..]), bytes.value, width, height)
      ensures bytes.Some? && (old(points) == null || old(points).Length < 4 * |bytes.value|) ==>
        fresh(points) && points[..] == Drawn(Zeros(4 * |bytes.value|), bytes.value, width, height)
    {
      if bytes.None? {
        return;
      }
      var data := bytes.value;
      var n := |data|;
      if points == null || points.Length < n * 4 {
        points := new int[n * 4](_ => 0);
        assert points[..] == Zeros(n * 4);
      }
      DrawSegments(points, data, width, height);
    }
  }

  /** The drawing loop of `onDraw`: writes segment `i`'s four coordinates to
      `a[4 * i .. 4 * i + 3]` for every `i < n - 1`, and nothing else. */
  method DrawSegments(a: array<int>, data: seq<int8>, width: int, height: int)
    requires a.Length >= 4 * |data|
    modifies a
    ensures a[..] == Drawn(old(a[..]), data, width, height)
  {
    var n := |data|;
    ghost var g := Geometry(data, width, height);
    ghost var before := a[..];
    var i := 0;
    while i < n - 1
      invariant 0 <= i <= SegmentCount(n)
      invariant forall k :: 0 <= k < 4 * i ==> a[k] == g[k]
      invariant forall k :: 4 * i <= k < a.Length ==> a[k] == before[k]
    {
      var x0, y0 := X(width, i, n), Y(data[i], height);
      var x1, y1 := X(width, i + 1, n), Y(data[i + 1], height);
      GeometryAt(data, width, height, i);
      a[4 * i] := x0;
      a[4 * i + 1] := y0;
      a[4 * i + 2] := x1;
      a[4 * i + 3] := y1;
      i := i + 1;
    }
    assert a[..] == Drawn(old(a[..]), data, width, height);
  }

  /** Drawing twice with no capture in between leaves `points` exactly as
      one draw does: the same array when it was already large enough, a
      fresh one otherwise, holding the geometry over the old contents. */
  method RedrawIsIdempotent(view: VisualizerView, width: int, height: int)
    requires width >= 0 && height >= 0 && view.bytes.Some?
    modifies view`points, view.points
    ensures view.bytes == old(view.bytes)
    ensures old(view.points) != null && old(view.points).Length >= 4 * |view.bytes.value| ==>
      view.points == old(view.points) &&
      view.points[..] == Drawn(old(view.points[..]), view.bytes.value, width, height)
    ensures old(view.points) == null || old(view.points).Length < 4 * |view.bytes.value| ==>
      fresh(view.points) && view.points.Length == 4 * |view.bytes.value| &&
      view.points[..] == Drawn(Zeros(4 * |view.bytes.value|), view.bytes.value, width, height)
  {
    view.OnDraw(width, height);
    ghost var first := view.points;
    ghost var firstContents := view.points[..];
    DrawnIdempotent(firstContents, view.bytes.value, width, height);
    view.OnDraw(width, height);
    assert view.points == first && view.points[..] == firstContents;
  }

  /** Opening a session, releasing it and opening another leaves exactly one live session. */
  method AttachDetachAttach(view: VisualizerView, first: int, second: int)
    requires view.Valid()
    modifies view, view.visualizer
    ensures view.Valid() && |view.Live()| == 1 && view.visualizer != null
    ensures view.visualizer.sessionId == second
  {
    view.SetAudioSessionId(first);
    view.Release();
    view.SetAudioSessionId(second);
  }

  /** Buffers of 10, 50 and 20 bytes drawn in turn on a new view leave `points` at 200 entries. */
  method CapacityNeverShrinks(width: int, height: int) returns (capacity: nat)
    requires width >= 0 && height >= 0
    ensures capacity == 200
  {
    var view := new VisualizerView();
    view.UpdateVisualizer(seq(10, _ => 0));
    view.OnDraw(width, height);
    view.UpdateVisualizer(seq(50, _ => 0));
    view.OnDraw(width, height);
    view.UpdateVisualizer(seq(20, _ => 0));
    view.OnDraw(width, height);
    capacity := view.points.Length;
  }
}
