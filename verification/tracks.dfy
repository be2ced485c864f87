/** The track-level folds over a list of segments' point lists, and the theorems that tie
    each of them to the segment-level query over the concatenated points. */
module Tracks {
  import opened Wrappers
  import opened TrackPoints
  import opened Segments
  import opened Extents
  import opened SpeedStats

  /** All points of all segments, in order. */
  function Flatten(segs: seq<seq<Point>>): seq<Point> {
    if segs == [] then [] else Flatten(segs[..|segs| - 1]) + segs[|segs| - 1]
  }

  lemma FlattenSnoc(segs: seq<seq<Point>>, s: seq<Point>)
    ensures Flatten(segs + [s]) == Flatten(segs) + s
  {
    assert (segs + [s])[..|segs|] == segs;
  }

  /** `totalPoints`: the reduce that adds up segment lengths. */
  function CountPoints(segs: seq<seq<Point>>): (r: nat)
    ensures r == |Flatten(segs)|
  {
    if segs == [] then 0 else CountPoints(segs[..|segs| - 1]) + |segs[|segs| - 1]|
  }

  /** `totalDistance`: the reduce that adds up each segment's own total distance. */
  function TrackDistance(d: Metric, segs: seq<seq<Point>>): real {
    if segs == [] then 0.0 else TrackDistance(d, segs[..|segs| - 1]) + SegmentDistance(d, segs[|segs| - 1])
  }

  /** `totalDistance` of a list with one more segment adds that segment's distance. */
  lemma TrackDistanceSnoc(d: Metric, segs: seq<seq<Point>>, s: seq<Point>)
    ensures TrackDistance(d, segs + [s]) == TrackDistance(d, segs) + SegmentDistance(d, s)
  {
    assert (segs + [s])[..|segs|] == segs;
  }

  /** The segments that hold at least one point, in order. */
  function NonEmpty(segs: seq<seq<Point>>): (r: seq<seq<Point>>)
    ensures forall k :: 0 <= k < |r| ==> r[k] != []
  {
    if segs == [] then []
    else
      var s := segs[|segs| - 1];
      NonEmpty(segs[..|segs| - 1]) + (if s == [] then [] else [s])
  }

  /** Dropping the empty segments changes neither the points nor the distance. */
  lemma {:induction false} NonEmptyKeepsTrack(d: Metric, segs: seq<seq<Point>>)
    ensures Flatten(NonEmpty(segs)) == Flatten(segs)
    ensures TrackDistance(d, NonEmpty(segs)) == TrackDistance(d, segs)
  {
    if segs != [] {
      var init, s := segs[..|segs| - 1], segs[|segs| - 1];
      NonEmptyKeepsTrack(d, init);
      if s == [] {
        assert NonEmpty(segs) == NonEmpty(init);
        assert Flatten(segs) == Flatten(init) + s;
      } else {
        assert NonEmpty(segs) == NonEmpty(init) + [s];
        FlattenSnoc(NonEmpty(init), s);
        TrackDistanceSnoc(d, NonEmpty(init), s);
      }
    }
  }

  /** The legs from the last point of each segment to the first point of the next, for
      segments that all hold points. */
  function Boundaries(d: Metric, segs: seq<seq<Point>>): real
    requires forall k :: 0 <= k < |segs| ==> segs[k] != []
  {
    if |segs| <= 1 then 0.0
    else
      var a, b := segs[|segs| - 2], segs[|segs| - 1];
      Boundaries(d, segs[..|segs| - 1]) + Leg(d, a[|a| - 1], b[0])
  }

  /** The legs a flat point list would have across segment boundaries: from the last point
      of each segment that holds points to the first point of the next such segment. */
  function Joins(d: Metric, segs: seq<seq<Point>>): real {
    Boundaries(d, NonEmpty(segs))
  }

  /** For segments that all hold points, the track's distance plus the boundary legs is the
      path length of the concatenation. */
  lemma {:induction false} TrackDistanceSkipsBoundaries(d: Metric, segs: seq<seq<Point>>)
    requires ZeroOnSelf(d)
    requires forall k :: 0 <= k < |segs| ==> segs[k] != []
    ensures TrackDistance(d, segs) + Boundaries(d, segs) == PathLength(d, Flatten(segs))
  {
    if |segs| == 1 {
      assert segs[..0] == [];
      assert Flatten(segs) == segs[0];
    } else if |segs| > 1 {
      var init, s := segs[..|segs| - 1], segs[|segs| - 1];
      TrackDistanceSkipsBoundaries(d, init);
      var f := Flatten(init);
      assert init[|init| - 1] == segs[|segs| - 2];
      LastOfFlatten(init);
      PathLengthAppend(d, f, s);
    }
  }

  /** A segment boundary adds no leg: the track's distance is the path length of all its
      points minus the legs across boundaries. Empty segments add nothing to either. */
  lemma TrackDistanceSkipsJoins(d: Metric, segs: seq<seq<Point>>)
    requires ZeroOnSelf(d)
    ensures TrackDistance(d, segs) + Joins(d, segs) == PathLength(d, Flatten(segs))
  {
    NonEmptyKeepsTrack(d, segs);
    TrackDistanceSkipsBoundaries(d, NonEmpty(segs));
  }

  lemma TrackDistanceWhenJoined(d: Metric, segs: seq<seq<Point>>)
    ensures ZeroOnSelf(d) ==> TrackDistance(d, segs) + Joins(d, segs) == PathLength(d, Flatten(segs))
  {
    if ZeroOnSelf(d) {
      TrackDistanceSkipsJoins(d, segs);
    }
  }

  /** The last point of the concatenation is the last point of the last segment. */
  lemma LastOfFlatten(segs: seq<seq<Point>>)
    requires segs != [] && segs[|segs| - 1] != []
    ensures Flatten(segs) != []
    ensures Flatten(segs)[|Flatten(segs)| - 1] == segs[|segs| - 1][|segs[|segs| - 1]| - 1]
  {
  }

  /** `bbox`: the reduce of per-segment boxes. */
  function TrackBBox(segs: seq<seq<Point>>): BBox {
    if segs == [] then EmptyBox else Union(TrackBBox(segs[..|segs| - 1]), BBoxOf(segs[|segs| - 1]))
  }

  /** The track's box is the box of all its points; for a track without points it is the
      same sentinel. */
  lemma {:induction false} TrackBBoxIsFlat(segs: seq<seq<Point>>)
    ensures TrackBBox(segs) == BBoxOf(Flatten(segs))
  {
    if segs != [] {
      var init := segs[..|segs| - 1];
      TrackBBoxIsFlat(init);
      BBoxOfAppend(Flatten(init), segs[|segs| - 1]);
    }
  }

  /** `speedInfo`: the reduce of per-segment records with the merge, from the initial
      record. */
  function MergeAll(segs: seq<seq<Point>>): SpeedInfo {
    if segs == [] then Initial else Merge(MergeAll(segs[..|segs| - 1]), SpeedInfoOf(segs[|segs| - 1]))
  }

  /** The central theorem: for a track with at least one segment, merging the segments'
      `speedInfo` gives exactly the `speedInfo` of the concatenated points. For a track
      without segments the result is the initial record, whose averages are 0. */
  lemma {:induction false} MergeAllIsFlat(segs: seq<seq<Point>>)
    ensures segs == [] ==> MergeAll(segs) == Initial
    ensures segs != [] ==> MergeAll(segs) == SpeedInfoOf(Flatten(segs))
  {
    if |segs| == 1 {
      assert segs[..0] == [];
      assert Flatten(segs) == segs[0];
      SpeedInfoOfCounts(segs[0]);
      MergeIdentity(SpeedInfoOf(segs[0]));
    } else if |segs| > 1 {
      var init := segs[..|segs| - 1];
      MergeAllIsFlat(init);
      MergeSpeedInfoOf(Flatten(init), segs[|segs| - 1]);
    }
  }

  /** The first point of the concatenation is the first point of the first segment. */
  lemma {:induction false} FirstOfFlatten(segs: seq<seq<Point>>)
    requires segs != [] && segs[0] != []
    ensures Flatten(segs) != [] && Flatten(segs)[0] == segs[0][0]
  {
    if |segs| == 1 {
      assert segs[..0] == [];
    } else {
      var init := segs[..|segs| - 1];
      assert init[0] == segs[0];
      FirstOfFlatten(init);
    }
  }
}
