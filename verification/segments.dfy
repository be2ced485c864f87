/** The per-segment derive pass and the segment's distance, over the segment's point list. */
module Segments {
  import opened Wrappers
  import opened TrackPoints

  /** `dist / dtime`: a zero time step has no finite average speed. */
  function Ratio(dist: real, dtime: real): Option<real> {
    if dtime == 0.0 then None else Some(dist / dtime)
  }

  /** The first point of a segment after the derive pass: all three fields zero. */
  function DerivedStart(p: Point): (r: Point)
    ensures SameReading(r, p)
    ensures r.dist == Some(0.0) && r.dtime == Some(0.0) && r.avgSpeed == Some(0.0)
  {
    Point(p.lat, p.lon, p.time, p.speed, Some(0.0), Some(0.0), Some(0.0))
  }

  /** A later point after the derive pass, given its predecessor: distance in metres,
      time step in seconds and their ratio. */
  function DerivedStep(d: Metric, prev: Point, cur: Point): (r: Point)
    ensures SameReading(r, cur)
  {
    var dist := Leg(d, prev, cur);
    var dtime := (TimeMs(cur) - TimeMs(prev)) as real / 1000.0;
    Point(cur.lat, cur.lon, cur.time, cur.speed, Some(dist), Some(dtime), Ratio(dist, dtime))
  }

  /** The point list after the derive pass: the first point zeroed, every later point
      stamped from its predecessor. */
  function Derive(d: Metric, pts: seq<Point>): (r: seq<Point>)
    ensures |r| == |pts|
  {
    if |pts| == 0 then []
    else if |pts| == 1 then [DerivedStart(pts[0])]
    else Derive(d, pts[..|pts| - 1]) + [DerivedStep(d, pts[|pts| - 2], pts[|pts| - 1])]
  }

  /** The derive pass keeps the order and the recorded data of every point, gives the first
      point zero distance, time and speed, and stamps each later point from its
      predecessor. */
  lemma {:induction false} DeriveAt(d: Metric, pts: seq<Point>, i: int)
    requires 0 <= i < |pts|
    ensures SameReading(Derive(d, pts)[i], pts[i])
    ensures i == 0 ==> Derive(d, pts)[i] == DerivedStart(pts[0])
    ensures i > 0 ==> Derive(d, pts)[i] == DerivedStep(d, pts[i - 1], pts[i])
  {
    if i < |pts| - 1 {
      var q := pts[..|pts| - 1];
      DeriveAt(d, q, i);
      assert Derive(d, pts)[i] == Derive(d, q)[i];
      assert q[i] == pts[i];
      assert i > 0 ==> q[i - 1] == pts[i - 1];
    }
  }

  /** The derive pass reads only recorded data and writes only derived fields, so running
      it a second time changes nothing. */
  lemma DeriveIdempotent(d: Metric, pts: seq<Point>)
    ensures Derive(d, Derive(d, pts)) == Derive(d, pts)
  {
    var once := Derive(d, pts);
    var twice := Derive(d, once);
    assert |twice| == |once| == |pts|;
    forall i | 0 <= i < |pts|
      ensures twice[i] == once[i]
    {
      DeriveAt(d, pts, i);
      DeriveAt(d, once, i);
      if i == 0 {
        assert once[0] == DerivedStart(pts[0]);
        assert twice[0] == DerivedStart(once[0]);
      } else {
        DeriveAt(d, pts, i - 1);
        StampDependsOnReadings(d, once[i - 1], pts[i - 1], once[i], pts[i]);
      }
    }
  }

  /** A stamped point depends only on the recorded data of the two points involved. */
  lemma StampDependsOnReadings(d: Metric, prev: Point, prev': Point, cur: Point, cur': Point)
    requires SameReading(prev, prev') && SameReading(cur, cur')
    ensures DerivedStep(d, prev, cur) == DerivedStep(d, prev', cur')
  {
    assert TimeMs(prev) == TimeMs(prev') && TimeMs(cur) == TimeMs(cur');
    assert Leg(d, prev, cur) == Leg(d, prev', cur');
  }

  /** Sum of the leg distances between consecutive points. */
  function PathLength(d: Metric, pts: seq<Point>): real {
    if |pts| <= 1 then 0.0
    else PathLength(d, pts[..|pts| - 1]) + Leg(d, pts[|pts| - 2], pts[|pts| - 1])
  }

  /** The segment's total distance as gpx.js folds it: 0 for an empty segment,
      otherwise a first step from the first point to itself and then one leg per
      consecutive pair. */
  function SegmentDistance(d: Metric, pts: seq<Point>): (r: real)
    ensures pts == [] ==> r == 0.0
    ensures ZeroOnSelf(d) ==> r == PathLength(d, pts)
  {
    if pts == [] then 0.0 else Leg(d, pts[0], pts[0]) + PathLength(d, pts)
  }

  /** Joining two non-empty point lists adds exactly one leg, from the last point of the
      first to the first point of the second. */
  lemma {:induction false} PathLengthAppend(d: Metric, xs: seq<Point>, ys: seq<Point>)
    requires xs != [] && ys != []
    ensures PathLength(d, xs + ys)
         == PathLength(d, xs) + Leg(d, xs[|xs| - 1], ys[0]) + PathLength(d, ys)
  {
    if |ys| == 1 {
      assert (xs + ys)[..|xs + ys| - 1] == xs;
    } else {
      var ys' := ys[..|ys| - 1];
      assert (xs + ys)[..|xs + ys| - 1] == xs + ys';
      PathLengthAppend(d, xs, ys');
    }
  }

  /** Sum of the stored `dist` fields (`null` reading as 0). */
  function StoredDistance(pts: seq<Point>): real {
    if pts == [] then 0.0 else StoredDistance(pts[..|pts| - 1]) + pts[|pts| - 1].dist.GetOr(0.0)
  }

  /** After the derive pass the stored distances add up to the path length, although the
      segment's total distance recomputes the legs instead of reading them. */
  lemma {:induction false} DerivedDistancesSumToPath(d: Metric, pts: seq<Point>)
    ensures StoredDistance(Derive(d, pts)) == PathLength(d, pts)
  {
    if |pts| > 1 {
      var q := pts[..|pts| - 1];
      DerivedDistancesSumToPath(d, q);
      assert Derive(d, pts)[..|pts| - 1] == Derive(d, q);
    } else if |pts| == 1 {
      assert Derive(d, pts)[..0] == [];
    }
  }
}
