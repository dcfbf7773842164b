/** Path playback (simulation/player.py): the frames a player precomputes by
    linear interpolation between consecutive waypoints of enabled segments.
    The Euclidean distance between waypoints is a parameter of the model. */
module Playback {
  import Domain

  datatype Vec3 = Vec3(x: real, y: real, z: real)

  /** A frame: an interpolated position, the index of its segment in the
      player's list, and the index of the waypoint the pair starts at. */
  datatype PathFrame = PathFrame(position: Vec3, segmentIndex: nat, pointIndex: nat)

  /** A constructed player: its segments, effective resolution and frames. */
  datatype Player = Player(segments: seq<Domain.PathSegment>, resolution: real, frames: seq<PathFrame>)

  /** A distance between two positions (the Euclidean norm in the program). */
  type Distance = (Vec3, Vec3) -> real

  const MinResolution: real := 0.1

  /** The resolution a player is constructed with when none is given. */
  const DefaultResolution: real := 1.0

  /** `max(resolution, 0.1)`. */
  function EffectiveResolution(resolution: real): (r: real)
    ensures r >= MinResolution && r >= resolution
    ensures r == resolution || r == MinResolution
  {
    if resolution >= MinResolution then resolution else MinResolution
  }

  function Position(p: Domain.PathPoint): Vec3 {
    Vec3(p.x, p.y, p.z)
  }

  /** `start * (1 - t) + end * t`, coordinate by coordinate. */
  function Lerp(a: Vec3, b: Vec3, t: real): Vec3 {
    Vec3(a.x * (1.0 - t) + b.x * t, a.y * (1.0 - t) + b.y * t, a.z * (1.0 - t) + b.z * t)
  }

  /** Python's `int(x)` on a float: truncation toward zero. */
  function Trunc(x: real): (n: int)
    ensures x >= 0.0 ==> n as real <= x < n as real + 1.0
    ensures x < 0.0 ==> n as real - 1.0 < x <= n as real
  {
    if x >= 0.0 then x.Floor else -((-x).Floor)
  }

  /** `max(int(distance / resolution), 1)`: frames for one waypoint pair. */
  function Steps(a: Vec3, b: Vec3, resolution: real, dist: Distance): (n: nat)
    requires resolution > 0.0
    ensures n >= 1
    ensures dist(a, b) >= 0.0 ==> n == if (dist(a, b) / resolution).Floor >= 1 then (dist(a, b) / resolution).Floor else 1
  {
    var q := Trunc(dist(a, b) / resolution);
    if q >= 1 then q else 1
  }

  /** The frames of one pair: `steps` equally spaced positions from the start
      (t = 0) towards the end, the end itself excluded. */
  function PairFrames(s: nat, p: nat, a: Vec3, b: Vec3, steps: nat): seq<PathFrame> {
    seq(steps, k requires 0 <= k < steps => PathFrame(Lerp(a, b, Param(k, steps)), s, p))
  }

  /** The interpolation parameter of the `k`-th of `steps` frames of a pair. */
  function Param(k: nat, steps: nat): real
    requires steps >= 1
  {
    k as real / steps as real
  }

  function PairSteps(seg: Domain.PathSegment, p: nat, resolution: real, dist: Distance): nat
    requires p + 1 < |seg.points| && resolution > 0.0
  {
    Steps(Position(seg.points[p]), Position(seg.points[p + 1]), resolution, dist)
  }

  /** The frames of the first `n` pairs of segment `s`. */
  function PairsUpTo(s: nat, seg: Domain.PathSegment, n: nat, resolution: real, dist: Distance): seq<PathFrame>
    requires n < |seg.points| && resolution > 0.0
  {
    if n == 0 then []
    else
      PairsUpTo(s, seg, n - 1, resolution, dist)
      + PairFrames(s, n - 1, Position(seg.points[n - 1]), Position(seg.points[n]), PairSteps(seg, n - 1, resolution, dist))
  }

  /** The frames of segment `s`: none when disabled or with fewer than two waypoints. */
  function SegmentFrames(s: nat, seg: Domain.PathSegment, resolution: real, dist: Distance): seq<PathFrame>
    requires resolution > 0.0
  {
    if !seg.enabled || |seg.points| < 2 then []
    else PairsUpTo(s, seg, |seg.points| - 1, resolution, dist)
  }

  /** The frames of all segments, each tagged with its position in the list. */
  function Frames(segments: seq<Domain.PathSegment>, resolution: real, dist: Distance): seq<PathFrame>
    requires resolution > 0.0
  {
    if |segments| == 0 then []
    else
      Frames(segments[..|segments| - 1], resolution, dist)
      + SegmentFrames(|segments| - 1, segments[|segments| - 1], resolution, dist)
  }

  /** The innermost loop of `_prepare_frames`: one frame per step of a pair. */
  method AppendPair(frames: seq<PathFrame>, s: nat, p: nat, a: Vec3, b: Vec3, steps: nat) returns (r: seq<PathFrame>)
    ensures r == frames + PairFrames(s, p, a, b, steps)
  {
    r := frames;
    var k := 0;
    while k < steps
      invariant 0 <= k <= steps
      invariant r == frames + PairFrames(s, p, a, b, steps)[..k]
    {
      var t := k as real / steps as real;
      assert PairFrames(s, p, a, b, steps)[..k + 1] == PairFrames(s, p, a, b, steps)[..k] + [PathFrame(Lerp(a, b, t), s, p)];
      r := r + [PathFrame(Lerp(a, b, t), s, p)];
      k := k + 1;
    }
    assert PairFrames(s, p, a, b, steps)[..k] == PairFrames(s, p, a, b, steps);
  }

  /** The loop over one segment's waypoint pairs. */
  method AppendSegment(frames: seq<PathFrame>, s: nat, seg: Domain.PathSegment, resolution: real, dist: Distance)
    returns (r: seq<PathFrame>)
    requires resolution > 0.0
    ensures r == frames + SegmentFrames(s, seg, resolution, dist)
  {
    r := frames;
    if !seg.enabled || |seg.points| < 2 {
      return;
    }
    var p := 0;
    while p < |seg.points| - 1
      invariant 0 <= p <= |seg.points| - 1
      invariant r == frames + PairsUpTo(s, seg, p, resolution, dist)
    {
      var a := Position(seg.points[p]);
      var b := Position(seg.points[p + 1]);
      var steps := Steps(a, b, resolution, dist);
      r := AppendPair(r, s, p, a, b, steps);
      p := p + 1;
    }
  }

  /** `_prepare_frames`: the loop over the segments, in order. */
  method PrepareFrames(segments: seq<Domain.PathSegment>, resolution: real, dist: Distance) returns (frames: seq<PathFrame>)
    requires resolution > 0.0
    ensures frames == Frames(segments, resolution, dist)
  {
    frames := [];
    var s := 0;
    while s < |segments|
      invariant 0 <= s <= |segments|
      invariant frames == Frames(segments[..s], resolution, dist)
    {
      assert segments[..s + 1][..s] == segments[..s];
      frames := AppendSegment(frames, s, segments[s], resolution, dist);
      s := s + 1;
    }
    assert segments[..s] == segments;
  }

  /** A player as its constructor leaves it: the resolution is at or above the
      floor and the frames are those of its segments at that resolution. */
  ghost predicate Built(player: Player, dist: Distance) {
    && player.resolution >= MinResolution
    && player.frames == Frames(player.segments, player.resolution, dist)
  }

  /** `PathPlayer(segments, resolution)`: the resolution is floored and every
      frame is computed once, at construction. */
  method NewPlayer(segments: seq<Domain.PathSegment>, resolution: real, dist: Distance) returns (player: Player)
    ensures player.segments == segments
    ensures player.resolution >= MinResolution
    ensures resolution >= MinResolution ==> player.resolution == resolution
    ensures resolution < MinResolution ==> player.resolution == MinResolution
    ensures player.frames == Frames(segments, player.resolution, dist)
    ensures Built(player, dist)
  {
    var r := EffectiveResolution(resolution);
    var frames := PrepareFrames(segments, r, dist);
    player := Player(segments, r, frames);
  }

  /** `PathPlayer(segments)`: the default resolution, already above the floor. */
  method NewDefaultPlayer(segments: seq<Domain.PathSegment>, dist: Distance) returns (player: Player)
    ensures player.segments == segments
    ensures player.resolution == 1.0
    ensures player.frames == Frames(segments, 1.0, dist)
    ensures Built(player, dist)
  {
    player := NewPlayer(segments, DefaultResolution, dist);
  }

  /** `iter_frames()`: the precomputed frames, the same on every call. For a
      player as its constructor built it, these are the frames of its segments
      at its resolution, with nothing recomputed. */
  function IterFrames(player: Player, ghost dist: Distance): (r: seq<PathFrame>)
    ensures r == player.frames
    ensures Built(player, dist) ==> r == Frames(player.segments, player.resolution, dist)
  {
    player.frames
  }

  /** `PathPlayer(segments, resolution).iter_frames()`: iterating a fresh player
      gives the frames of the segments at the floored resolution. */
  method PlayFrames(segments: seq<Domain.PathSegment>, resolution: real, dist: Distance) returns (frames: seq<PathFrame>)
    ensures frames == Frames(segments, EffectiveResolution(resolution), dist)
  {
    var player := NewPlayer(segments, resolution, dist);
    frames := IterFrames(player, dist);
  }

  // ---------------------------------------------------------------------------
  // Properties of the frames
  // ---------------------------------------------------------------------------

  predicate Between(u: real, w: real, v: real) {
    (u <= v <= w) || (w <= v <= u)
  }

  /** Each coordinate of `v` lies between the coordinates of `a` and `b`. */
  predicate BetweenPoints(a: Vec3, b: Vec3, v: Vec3) {
    Between(a.x, b.x, v.x) && Between(a.y, b.y, v.y) && Between(a.z, b.z, v.z)
  }

  lemma ProductNonNegative(x: real, y: real)
    requires x >= 0.0 && y >= 0.0
    ensures x * y >= 0.0
  {
  }

  /** The parameters of a pair's frames start at 0, increase strictly and stay below 1. */
  lemma ParamRange(k: nat, steps: nat)
    requires k < steps
    ensures 0.0 <= Param(k, steps) < 1.0
    ensures k + 1 < steps ==> Param(k, steps) < Param(k + 1, steps)
  {
  }

  lemma CoordinateBetween(u: real, w: real, t: real)
    requires 0.0 <= t <= 1.0
    ensures Between(u, w, u * (1.0 - t) + w * t)
  {
    var v := u * (1.0 - t) + w * t;
    assert v == u + (w - u) * t;
    assert w - v == (w - u) * (1.0 - t);
    if u <= w {
      ProductNonNegative(w - u, t);
      ProductNonNegative(w - u, 1.0 - t);
    } else {
      ProductNonNegative(u - w, t);
      ProductNonNegative(u - w, 1.0 - t);
      assert v - w == (u - w) * (1.0 - t);
      assert u - v == (u - w) * t;
    }
  }

  /** An interpolated position with 0 <= t <= 1 lies between the pair's endpoints. */
  lemma LerpBetween(a: Vec3, b: Vec3, t: real)
    requires 0.0 <= t <= 1.0
    ensures BetweenPoints(a, b, Lerp(a, b, t))
  {
    CoordinateBetween(a.x, b.x, t);
    CoordinateBetween(a.y, b.y, t);
    CoordinateBetween(a.z, b.z, t);
  }

  /** One pair contributes exactly `steps` frames tagged with the pair; the
      first is the start waypoint (t = 0), and the interpolation parameter
      increases strictly and stays below 1, so the end is never emitted. */
  lemma PairFramesShape(s: nat, p: nat, a: Vec3, b: Vec3, steps: nat)
    requires steps >= 1
    ensures |PairFrames(s, p, a, b, steps)| == steps
    ensures PairFrames(s, p, a, b, steps)[0].position == a
    ensures forall k :: 0 <= k < steps ==>
      && 0.0 <= Param(k, steps) < 1.0
      && PairFrames(s, p, a, b, steps)[k] == PathFrame(Lerp(a, b, Param(k, steps)), s, p)
      && BetweenPoints(a, b, PairFrames(s, p, a, b, steps)[k].position)
  {
    forall k | 0 <= k < steps
      ensures 0.0 <= Param(k, steps) < 1.0
      ensures BetweenPoints(a, b, PairFrames(s, p, a, b, steps)[k].position)
    {
      ParamRange(k, steps);
      LerpBetween(a, b, Param(k, steps));
    }
  }

  /** The frame lies on the pair of waypoints it names. */
  predicate OnPair(seg: Domain.PathSegment, f: PathFrame) {
    && f.pointIndex + 1 < |seg.points|
    && BetweenPoints(Position(seg.points[f.pointIndex]), Position(seg.points[f.pointIndex + 1]), f.position)
  }

  /** The frame names a segment that plays (enabled, two waypoints or more) and lies on one of its pairs. */
  predicate FrameOk(segments: seq<Domain.PathSegment>, f: PathFrame) {
    && f.segmentIndex < |segments|
    && segments[f.segmentIndex].enabled
    && |segments[f.segmentIndex].points| >= 2
    && OnPair(segments[f.segmentIndex], f)
  }

  /** Frames come in (segment index, point index) order. */
  predicate Ordered(fs: seq<PathFrame>) {
    forall i, j :: 0 <= i < j < |fs| ==> Precedes(fs[i], fs[j])
  }

  predicate Precedes(f: PathFrame, g: PathFrame) {
    f.segmentIndex < g.segmentIndex || (f.segmentIndex == g.segmentIndex && f.pointIndex <= g.pointIndex)
  }

  lemma OrderedAppend(a: seq<PathFrame>, b: seq<PathFrame>)
    requires Ordered(a) && Ordered(b)
    requires forall i, j :: 0 <= i < |a| && 0 <= j < |b| ==> Precedes(a[i], b[j])
    ensures Ordered(a + b)
  {
    var c := a + b;
    forall i, j | 0 <= i < j < |c| ensures Precedes(c[i], c[j]) {
      if j < |a| {
        assert c[i] == a[i] && c[j] == a[j];
      } else if i >= |a| {
        assert c[i] == b[i - |a|] && c[j] == b[j - |a|];
      } else {
        assert c[i] == a[i] && c[j] == b[j - |a|];
      }
    }
  }

  /** The first `n` pairs of a segment give at least `n` frames, all tagged
      with the segment, lying on a pair below `n`, in order. */
  lemma {:induction false} PairsUpToFacts(s: nat, seg: Domain.PathSegment, n: nat, resolution: real, dist: Distance)
    requires n < |seg.points| && resolution > 0.0
    ensures |PairsUpTo(s, seg, n, resolution, dist)| >= n
    ensures forall i :: 0 <= i < |PairsUpTo(s, seg, n, resolution, dist)| ==>
      var f := PairsUpTo(s, seg, n, resolution, dist)[i];
      f.segmentIndex == s && f.pointIndex < n && OnPair(seg, f)
    ensures Ordered(PairsUpTo(s, seg, n, resolution, dist))
  {
    if n > 0 {
      PairsUpToFacts(s, seg, n - 1, resolution, dist);
      var prefix := PairsUpTo(s, seg, n - 1, resolution, dist);
      var a := Position(seg.points[n - 1]);
      var b := Position(seg.points[n]);
      var steps := PairSteps(seg, n - 1, resolution, dist);
      var last := PairFrames(s, n - 1, a, b, steps);
      PairFramesShape(s, n - 1, a, b, steps);
      assert Ordered(last);
      OrderedAppend(prefix, last);
      var all := prefix + last;
      forall i | 0 <= i < |all|
        ensures all[i].segmentIndex == s && all[i].pointIndex < n && OnPair(seg, all[i])
      {
        if i >= |prefix| {
          assert all[i] == last[i - |prefix|];
        } else {
          assert all[i] == prefix[i];
        }
      }
    }
  }

  /** A segment that plays contributes at least one frame per waypoint pair,
      all on its own pairs and in order; any other segment contributes none. */
  lemma SegmentFramesFacts(s: nat, seg: Domain.PathSegment, resolution: real, dist: Distance)
    requires resolution > 0.0
    ensures !seg.enabled || |seg.points| < 2 ==> SegmentFrames(s, seg, resolution, dist) == []
    ensures seg.enabled && |seg.points| >= 2 ==> |SegmentFrames(s, seg, resolution, dist)| >= |seg.points| - 1
    ensures forall i :: 0 <= i < |SegmentFrames(s, seg, resolution, dist)| ==>
      var f := SegmentFrames(s, seg, resolution, dist)[i];
      f.segmentIndex == s && seg.enabled && |seg.points| >= 2 && f.pointIndex <= |seg.points| - 2 && OnPair(seg, f)
    ensures Ordered(SegmentFrames(s, seg, resolution, dist))
  {
    if seg.enabled && |seg.points| >= 2 {
      PairsUpToFacts(s, seg, |seg.points| - 1, resolution, dist);
    }
  }

  /** Every frame names, by its position in the list, a segment that plays,
      and lies between the two waypoints of the pair it names. */
  lemma {:induction false} FramesWellFormed(segments: seq<Domain.PathSegment>, resolution: real, dist: Distance)
    requires resolution > 0.0
    ensures forall i :: 0 <= i < |Frames(segments, resolution, dist)| ==> FrameOk(segments, Frames(segments, resolution, dist)[i])
    ensures Ordered(Frames(segments, resolution, dist))
    decreases |segments|
  {
    if |segments| > 0 {
      var n := |segments|;
      var init := segments[..n - 1];
      FramesWellFormed(init, resolution, dist);
      SegmentFramesFacts(n - 1, segments[n - 1], resolution, dist);
      var prefix := Frames(init, resolution, dist);
      var last := SegmentFrames(n - 1, segments[n - 1], resolution, dist);
      forall i, j | 0 <= i < |prefix| && 0 <= j < |last| ensures Precedes(prefix[i], last[j]) {
        assert FrameOk(init, prefix[i]);
      }
      OrderedAppend(prefix, last);
      var all := prefix + last;
      forall i | 0 <= i < |all| ensures FrameOk(segments, all[i]) {
        if i < |prefix| {
          assert all[i] == prefix[i] && FrameOk(init, prefix[i]);
          assert init[prefix[i].segmentIndex] == segments[prefix[i].segmentIndex];
        } else {
          assert all[i] == last[i - |prefix|];
        }
      }
    }
  }

  /** Disabled segments and segments with fewer than two waypoints have no
      frame, yet still occupy their index. */
  lemma SkippedSegmentsHaveNoFrames(segments: seq<Domain.PathSegment>, resolution: real, dist: Distance, s: nat)
    requires resolution > 0.0 && s < |segments|
    requires !segments[s].enabled || |segments[s].points| < 2
    ensures forall i :: 0 <= i < |Frames(segments, resolution, dist)| ==> Frames(segments, resolution, dist)[i].segmentIndex != s
  {
    FramesWellFormed(segments, resolution, dist);
  }

  /** A segment with two waypoints, (0,0,0) and (10,0,0) millimetres. */
  const ExampleSegment: Domain.PathSegment :=
    Domain.NewSegment("S").(points := [Domain.PathPoint(0.0, 0.0, 0.0, 0.0, 0.0, 0.0, []), Domain.PathPoint(10.0, 0.0, 0.0, 0.0, 0.0, 0.0, [])])

  /** At resolution 5, with the two waypoints 10 apart, the example segment
      plays as the frames (0,0,0) and (5,0,0): two steps, the end excluded. */
  lemma TwoWaypointExample(dist: Distance)
    requires dist(Vec3(0.0, 0.0, 0.0), Vec3(10.0, 0.0, 0.0)) == 10.0
    ensures Frames([ExampleSegment], 5.0, dist) == [PathFrame(Vec3(0.0, 0.0, 0.0), 0, 0), PathFrame(Vec3(5.0, 0.0, 0.0), 0, 0)]
  {
    var seg := ExampleSegment;
    ExampleSteps(dist);
    ExamplePairFrames();
    assert PairsUpTo(0, seg, 1, 5.0, dist) == PairsUpTo(0, seg, 0, 5.0, dist) + PairFrames(0, 0, Vec3(0.0, 0.0, 0.0), Vec3(10.0, 0.0, 0.0), 2);
    assert [seg][..0] == [];
  }

  lemma ExampleSteps(dist: Distance)
    requires dist(Vec3(0.0, 0.0, 0.0), Vec3(10.0, 0.0, 0.0)) == 10.0
    ensures PairSteps(ExampleSegment, 0, 5.0, dist) == 2
  {
    assert Position(ExampleSegment.points[0]) == Vec3(0.0, 0.0, 0.0);
    assert Position(ExampleSegment.points[1]) == Vec3(10.0, 0.0, 0.0);
    assert 10.0 / 5.0 == 2.0;
  }

  lemma ExamplePairFrames()
    ensures PairFrames(0, 0, Vec3(0.0, 0.0, 0.0), Vec3(10.0, 0.0, 0.0), 2)
      == [PathFrame(Vec3(0.0, 0.0, 0.0), 0, 0), PathFrame(Vec3(5.0, 0.0, 0.0), 0, 0)]
  {
    var frames := PairFrames(0, 0, Vec3(0.0, 0.0, 0.0), Vec3(10.0, 0.0, 0.0), 2);
    ExampleParams();
    ExampleLerp();
    assert frames[0] == PathFrame(Vec3(0.0, 0.0, 0.0), 0, 0);
    assert frames[1] == PathFrame(Vec3(5.0, 0.0, 0.0), 0, 0);
  }

  lemma ExampleParams()
    ensures Param(0, 2) == 0.0 && Param(1, 2) == 0.5
  {
  }

  lemma ExampleLerp()
    ensures Lerp(Vec3(0.0, 0.0, 0.0), Vec3(10.0, 0.0, 0.0), 0.0) == Vec3(0.0, 0.0, 0.0)
    ensures Lerp(Vec3(0.0, 0.0, 0.0), Vec3(10.0, 0.0, 0.0), 0.5) == Vec3(5.0, 0.0, 0.0)
  {
  }
}
