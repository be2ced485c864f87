/** The track and segment objects: a segment owns an array of points that its derive pass
    updates in place; a track owns a list of segments. Every query is recomputed from the
    stored points. */
module Gpx {
  import opened Wrappers
  import opened TrackPoints
  import opened Segments
  import opened Extents
  import opened SpeedStats
  import opened Tracks

  class TrackSegment {
    const points: array<Point>

    /** `new TrackSegment(points)`: the segment holds the given array itself. */
    constructor (pts: array<Point>)
      ensures points == pts
    {
      points := pts;
    }

    /** The derive pass: on an empty segment returns `null` and changes nothing; otherwise
        stamps every point in place (the first with zeros, each later one from its
        predecessor), keeps every point's recorded data and returns the segment. */
    method ComputeAverages(d: Metric) returns (r: TrackSegment?)
      modifies points
      ensures points.Length == 0 ==> r == null
      ensures points.Length > 0 ==> r == this
      ensures points[..] == Derive(d, old(points[..]))
    {
      if points.Length == 0 {
        return null;
      }
      ghost var before := points[..];
      var prev := points[0];
      prev := prev.(dist := Some(0.0), dtime := Some(0.0), avgSpeed := Some(0.0));
      points[0] := prev;
      assert points[..1] == Derive(d, before[..1]);
      var i := 1;
      while i < points.Length
        invariant 1 <= i <= points.Length
        invariant points[..i] == Derive(d, before[..i])
        invariant points[i..] == before[i..]
        invariant prev == points[i - 1] && SameReading(prev, before[i - 1])
      {
        var cur := points[i];
        assert cur == before[i];
        var dist := Leg(d, prev, cur);
        var time := (TimeMs(cur) - TimeMs(prev)) as real / 1000.0;
        cur := cur.(dist := Some(dist), dtime := Some(time), avgSpeed := Ratio(dist, time));
        StampDependsOnReadings(d, prev, before[i - 1], before[i], before[i]);
        assert cur == DerivedStep(d, before[i - 1], before[i]);
        points[i] := cur;
        prev := cur;
        assert before[..i + 1][..i] == before[..i];
        assert points[..i + 1] == points[..i] + [cur];
        i := i + 1;
      }
      assert before[..i] == before;
      return this;
    }

    /** `firstPoint`: `null` for an empty segment, otherwise the point at index 0. */
    function FirstPoint(): (r: Option<Point>)
      reads points
      ensures r.None? <==> points.Length == 0
      ensures r.Some? ==> r.value == points[0]
    {
      if points.Length == 0 then None else Some(points[0])
    }

    /** `lastPoint`: `null` for an empty segment, otherwise the point at the last index. */
    function LastPoint(): (r: Option<Point>)
      reads points
      ensures r.None? <==> points.Length == 0
      ensures r.Some? ==> r.value == points[points.Length - 1]
    {
      if points.Length == 0 then None else Some(points[points.Length - 1])
    }

    /** `totalDistance`: 0 for an empty segment; otherwise a step from the first point to
        itself and one leg per consecutive pair, which is the path length whenever the
        metric puts a point at distance 0 from itself. */
    method TotalDistance(d: Metric) returns (r: real)
      ensures r == SegmentDistance(d, points[..])
      ensures ZeroOnSelf(d) ==> r == PathLength(d, points[..])
    {
      if points.Length == 0 {
        return 0.0;
      }
      var prev := points[0];
      r := 0.0;
      var i := 0;
      while i < points.Length
        invariant 0 <= i <= points.Length
        invariant prev == points[if i == 0 then 0 else i - 1]
        invariant r == if i == 0 then 0.0 else Leg(d, points[0], points[0]) + PathLength(d, points[..i])
      {
        var cur := points[i];
        r := r + Leg(d, prev, cur);
        prev := cur;
        assert points[..i + 1][..i] == points[..i];
        i := i + 1;
      }
      assert points[..i] == points[..];
    }

    /** `bbox`: the sentinel box exactly for an empty segment; otherwise the smallest box
        holding every point. */
    function BBox(): (r: BBox)
      reads points
      ensures r == EmptyBox <==> points.Length == 0
      ensures r.Box? ==> Encloses(r, points[..]) && Attained(r, points[..])
    {
      BBoxOfBounds(points[..]);
      BBoxOf(points[..])
    }

    /** `timeInfo`: the earliest and latest defined timestamps, points without a time
        skipped, the sentinels when no point has a time. */
    method TimeInfo() returns (r: TimeSpan)
      ensures r == TimeSpanOf(points[..])
      ensures r.start.None? <==> Untimed(points[..])
      ensures r.end.None? <==> Untimed(points[..])
      ensures r.start.Some? ==> IsEarliest(points[..], r.start.value)
      ensures r.end.Some? ==> IsLatest(points[..], r.end.value)
    {
      r := NoTime;
      var i := 0;
      while i < points.Length
        invariant 0 <= i <= points.Length
        invariant r == TimeSpanOf(points[..i])
      {
        var p := points[i];
        if p.time.Some? {
          r := r.(start := if r.start.None? || r.start.value > p.time.value then p.time else r.start);
          r := r.(end := if r.end.None? || r.end.value < p.time.value then p.time else r.end);
        }
        assert points[..i + 1][..i] == points[..i];
        i := i + 1;
      }
      assert points[..i] == points[..];
      TimeSpanOfBounds(points[..]);
    }

    /** `speedInfo`: still points are only counted; the minimum, maximum and sum of both the
        device speed and the average speed are taken over the moving points, ties keeping
        the earliest; `avg` divides by the moving count and `avgAvg` by all points. */
    method SpeedInfo() returns (r: SpeedInfo)
      ensures r == SpeedInfoOf(points[..])
      ensures r.total == points.Length && r.moving + r.still == r.total
    {
      r := Initial;
      var i := 0;
      while i < points.Length
        invariant 0 <= i <= points.Length
        invariant r == Tally(points[..i])
      {
        var p := points[i];
        if !IsMoving(p) {
          r := r.(still := r.still + 1);
        } else {
          r := r.(moving := r.moving + 1);
          if Below(SpeedOf(p), r.min) {
            r := r.(min := Some(Extreme(SpeedOf(p), p)));
          }
          if Above(SpeedOf(p), r.max) {
            r := r.(max := Some(Extreme(SpeedOf(p), p)));
          }
          r := r.(sum := r.sum + SpeedOf(p));
          if Below(AvgSpeedOf(p), r.avgMin) {
            r := r.(avgMin := Some(Extreme(AvgSpeedOf(p), p)));
          }
          if Above(AvgSpeedOf(p), r.avgMax) {
            r := r.(avgMax := Some(Extreme(AvgSpeedOf(p), p)));
          }
          r := r.(avgSum := r.avgSum + AvgSpeedOf(p));
        }
        TallySnoc(points[..i], p);
        assert points[..i + 1] == points[..i] + [p];
        i := i + 1;
      }
      assert points[..i] == points[..];
      r := r.(total := points.Length);
      r := r.(avg := Div(r.sum, r.moving));
      r := r.(avgAvg := Div(r.avgSum, r.total));
      SpeedInfoOfCounts(points[..]);
    }
  }

  class Track {
    const segments: seq<TrackSegment>

    /** `new Track(segments)`. */
    constructor (segs: seq<TrackSegment>)
      ensures segments == segs
    {
      segments := segs;
    }

    /** The point lists of the segments, in order. */
    function Points(): (r: seq<seq<Point>>)
      reads set s | s in segments :: s.points
      ensures |r| == |segments|
      ensures forall k :: 0 <= k < |segments| ==> r[k] == segments[k].points[..]
    {
      seq(|segments|, k requires 0 <= k < |segments| reads set s | s in segments :: s.points => segments[k].points[..])
    }

    /** `computeAverages`: runs the derive pass of every segment and returns the track.
        Because the pass is idempotent, this holds even when two segments share one array. */
    method ComputeAverages(d: Metric) returns (r: Track)
      modifies set s | s in segments :: s.points
      ensures r == this
      ensures forall k :: 0 <= k < |segments| ==>
        segments[k].points[..] == Derive(d, old(segments[k].points[..]))
    {
      var k := 0;
      while k < |segments|
        invariant 0 <= k <= |segments|
        invariant forall j :: 0 <= j < k ==>
          segments[j].points[..] == Derive(d, old(segments[j].points[..]))
        invariant forall j :: k <= j < |segments| ==>
          || segments[j].points[..] == old(segments[j].points[..])
          || segments[j].points[..] == Derive(d, old(segments[j].points[..]))
      {
        var s := segments[k];
        DeriveIdempotent(d, old(s.points[..]));
        var _ := s.ComputeAverages(d);
        k := k + 1;
      }
      return this;
    }

    /** `firstPoint`: `null` without segments; otherwise the first segment's first point,
        `null` when that segment is empty (later segments are not consulted). */
    function FirstPoint(): (r: Option<Point>)
      reads set s | s in segments :: s.points
      ensures r.None? <==> |segments| == 0 || segments[0].points.Length == 0
      ensures r.Some? ==> Flatten(Points()) != [] && r.value == Flatten(Points())[0]
    {
      if |segments| == 0 then None
      else if segments[0].points.Length == 0 then segments[0].FirstPoint()
      else
        FirstOfFlatten(Points());
        segments[0].FirstPoint()
    }

    /** `lastPoint`: `null` without segments; otherwise the last segment's last point,
        `null` when that segment is empty (earlier segments are not consulted). */
    function LastPoint(): (r: Option<Point>)
      reads set s | s in segments :: s.points
      ensures r.None? <==> |segments| == 0 || segments[|segments| - 1].points.Length == 0
      ensures r.Some? ==> Flatten(Points()) != [] && r.value == Flatten(Points())[|Flatten(Points())| - 1]
    {
      if |segments| == 0 then None
      else if segments[|segments| - 1].points.Length == 0 then segments[|segments| - 1].LastPoint()
      else
        LastOfFlatten(Points());
        segments[|segments| - 1].LastPoint()
    }

    /** `totalDistance`: the sum of the segments' totals. With a metric that is 0 from a
        point to itself, it is the path length over all points minus the legs across
        segment boundaries. */
    function TotalDistance(d: Metric): (r: real)
      reads set s | s in segments :: s.points
      ensures |segments| == 0 ==> r == 0.0
      ensures ZeroOnSelf(d) ==> r + Joins(d, Points()) == PathLength(d, Flatten(Points()))
    {
      TrackDistanceWhenJoined(d, Points());
      TrackDistance(d, Points())
    }

    /** `totalPoints`: the number of points over all segments. */
    function TotalPoints(): (r: nat)
      reads set s | s in segments :: s.points
      ensures r == |Flatten(Points())|
    {
      CountPoints(Points())
    }

    /** `bbox`: the box of all the track's points, the sentinel when it has none. */
    function BBox(): (r: BBox)
      reads set s | s in segments :: s.points
      ensures r == BBoxOf(Flatten(Points()))
    {
      TrackBBoxIsFlat(Points());
      TrackBBox(Points())
    }

    /** `timeInfo`: the span of all the track's points. */
    method TimeInfo() returns (r: TimeSpan)
      ensures r == TimeSpanOf(Flatten(Points()))
    {
      ghost var segs := Points();
      r := NoTime;
      var k := 0;
      while k < |segments|
        invariant 0 <= k <= |segments|
        invariant r == TimeSpanOf(Flatten(segs[..k]))
      {
        var ti := segments[k].TimeInfo();
        if ti.start.Some? && (r.start.None? || r.start.value > ti.start.value) {
          r := r.(start := ti.start);
        }
        if ti.end.Some? && (r.end.None? || r.end.value < ti.end.value) {
          r := r.(end := ti.end);
        }
        assert ti == TimeSpanOf(segs[k]);
        assert r == Join(TimeSpanOf(Flatten(segs[..k])), TimeSpanOf(segs[k]));
        TimeSpanOfAppend(Flatten(segs[..k]), segs[k]);
        assert segs[..k + 1] == segs[..k] + [segs[k]];
        FlattenSnoc(segs[..k], segs[k]);
        k := k + 1;
      }
      assert segs[..k] == segs;
    }

    /** `speedInfo`: the merge of the segments' records. For a track with segments it is
        exactly the `speedInfo` of all its points taken as one segment; for a track without
        segments it is the initial record. */
    function SpeedInfo(): (r: SpeedInfo)
      reads set s | s in segments :: s.points
      ensures |segments| == 0 ==> r == Initial
      ensures |segments| > 0 ==> r == SpeedInfoOf(Flatten(Points()))
    {
      MergeAllIsFlat(Points());
      MergeAll(Points())
    }
  }
}
