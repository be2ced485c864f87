/** The bounding box and the time span of a point list, and how two of them combine. */
module Extents {
  import opened Wrappers
  import opened TrackPoints

  function Min(a: real, b: real): real { if a <= b then a else b }
  function Max(a: real, b: real): real { if a >= b then a else b }

  /** A bounding box. `EmptyBox` is the sentinel record of gpx.js
      {latMin: +Infinity, latMax: -Infinity, lonMin: +Infinity, lonMax: -Infinity}. */
  datatype BBox = EmptyBox | Box(latMin: real, latMax: real, lonMin: real, lonMax: real)

  /** One reduce step of the segment's bbox: widen the box to take in point `p`. */
  function Extend(b: BBox, p: Point): BBox {
    match b
    case EmptyBox => Box(p.lat, p.lat, p.lon, p.lon)
    case Box(a0, a1, o0, o1) => Box(Min(a0, p.lat), Max(a1, p.lat), Min(o0, p.lon), Max(o1, p.lon))
  }

  /** One reduce step of the track's bbox: the component-wise min/max of two boxes. */
  function Union(a: BBox, b: BBox): BBox {
    match (a, b)
    case (EmptyBox, _) => b
    case (_, EmptyBox) => a
    case (Box(a0, a1, o0, o1), Box(b0, b1, p0, p1)) =>
      Box(Min(a0, b0), Max(a1, b1), Min(o0, p0), Max(o1, p1))
  }

  /** The bounding box of a point list, folded left from the sentinel. */
  function BBoxOf(pts: seq<Point>): BBox {
    if pts == [] then EmptyBox else Extend(BBoxOf(pts[..|pts| - 1]), pts[|pts| - 1])
  }

  /** Every point lies inside the box. */
  ghost predicate Encloses(b: BBox, pts: seq<Point>)
    requires b.Box?
  {
    forall i :: 0 <= i < |pts| ==>
      b.latMin <= pts[i].lat <= b.latMax && b.lonMin <= pts[i].lon <= b.lonMax
  }

  /** Each of the four bounds is the coordinate of some point. */
  ghost predicate Attained(b: BBox, pts: seq<Point>)
    requires b.Box?
  {
    && (exists i :: 0 <= i < |pts| && pts[i].lat == b.latMin)
    && (exists i :: 0 <= i < |pts| && pts[i].lat == b.latMax)
    && (exists i :: 0 <= i < |pts| && pts[i].lon == b.lonMin)
    && (exists i :: 0 <= i < |pts| && pts[i].lon == b.lonMax)
  }

  /** The box is the sentinel exactly for an empty list; otherwise it is the smallest box
      holding every point: it encloses them all and each bound is attained. */
  lemma {:induction false} BBoxOfBounds(pts: seq<Point>)
    ensures BBoxOf(pts) == EmptyBox <==> pts == []
    ensures BBoxOf(pts).Box? ==> Encloses(BBoxOf(pts), pts) && Attained(BBoxOf(pts), pts)
  {
    if pts != [] {
      var q, p := pts[..|pts| - 1], pts[|pts| - 1];
      BBoxOfBounds(q);
      var b := BBoxOf(pts);
      assert forall i :: 0 <= i < |q| ==> pts[i] == q[i];
      if q == [] {
        assert b == Box(p.lat, p.lat, p.lon, p.lon);
        assert pts[0] == p;
      } else {
        var c := BBoxOf(q);
        var last := |pts| - 1;
        if b.latMin != p.lat {
          var i :| 0 <= i < |q| && q[i].lat == c.latMin;
          assert pts[i].lat == b.latMin;
        }
        if b.latMax != p.lat {
          var i :| 0 <= i < |q| && q[i].lat == c.latMax;
          assert pts[i].lat == b.latMax;
        }
        if b.lonMin != p.lon {
          var i :| 0 <= i < |q| && q[i].lon == c.lonMin;
          assert pts[i].lon == b.lonMin;
        }
        if b.lonMax != p.lon {
          var i :| 0 <= i < |q| && q[i].lon == c.lonMax;
          assert pts[i].lon == b.lonMax;
        }
        assert pts[last] == p;
      }
    }
  }

  /** Widening by one point is the union with that point's own box. */
  lemma ExtendIsUnion(b: BBox, p: Point)
    ensures Extend(b, p) == Union(b, BBoxOf([p]))
  {
    assert [p][..0] == [];
  }

  lemma UnionAssociative(a: BBox, b: BBox, c: BBox)
    ensures Union(Union(a, b), c) == Union(a, Union(b, c))
  {
  }

  /** The box of two concatenated lists is the union of their boxes: the track's fold over
      per-segment boxes gives the box of all its points. */
  lemma {:induction false} BBoxOfAppend(xs: seq<Point>, ys: seq<Point>)
    ensures BBoxOf(xs + ys) == Union(BBoxOf(xs), BBoxOf(ys))
  {
    if ys == [] {
      assert xs + ys == xs;
    } else {
      var ys', p := ys[..|ys| - 1], ys[|ys| - 1];
      assert (xs + ys)[..|xs + ys| - 1] == xs + ys';
      BBoxOfAppend(xs, ys');
      ExtendIsUnion(BBoxOf(xs + ys'), p);
      ExtendIsUnion(BBoxOf(ys'), p);
      UnionAssociative(BBoxOf(xs), BBoxOf(ys'), BBoxOf([p]));
    }
  }

  /** A time span. `start == None` is the +Infinity sentinel of gpx.js and `end == None` its
      -Infinity sentinel. */
  datatype TimeSpan = TimeSpan(start: Option<int>, end: Option<int>)

  const NoTime := TimeSpan(None, None)

  /** `a > b ? b : a`, with `None` as +Infinity. */
  function Earlier(a: Option<int>, b: Option<int>): Option<int> {
    if b.Some? && (a.None? || a.value > b.value) then b else a
  }

  /** `a < b ? b : a`, with `None` as -Infinity. */
  function Later(a: Option<int>, b: Option<int>): Option<int> {
    if b.Some? && (a.None? || a.value < b.value) then b else a
  }

  /** One step of the segment's time fold: points without a time are filtered out. */
  function Widen(s: TimeSpan, p: Point): TimeSpan {
    if p.time.None? then s else TimeSpan(Earlier(s.start, p.time), Later(s.end, p.time))
  }

  /** One step of the track's time fold: combine a segment's span into the running one. */
  function Join(a: TimeSpan, b: TimeSpan): TimeSpan {
    TimeSpan(Earlier(a.start, b.start), Later(a.end, b.end))
  }

  /** The time span of a point list, folded left from the sentinel. */
  function TimeSpanOf(pts: seq<Point>): TimeSpan {
    if pts == [] then NoTime else Widen(TimeSpanOf(pts[..|pts| - 1]), pts[|pts| - 1])
  }

  /** No point carries a time. */
  ghost predicate Untimed(pts: seq<Point>) {
    forall i :: 0 <= i < |pts| ==> pts[i].time.None?
  }

  /** `t` is the earliest of the defined timestamps. */
  ghost predicate IsEarliest(pts: seq<Point>, t: int) {
    && (exists i :: 0 <= i < |pts| && pts[i].time == Some(t))
    && (forall i :: 0 <= i < |pts| && pts[i].time.Some? ==> t <= pts[i].time.value)
  }

  /** `t` is the latest of the defined timestamps. */
  ghost predicate IsLatest(pts: seq<Point>, t: int) {
    && (exists i :: 0 <= i < |pts| && pts[i].time == Some(t))
    && (forall i :: 0 <= i < |pts| && pts[i].time.Some? ==> pts[i].time.value <= t)
  }

  /** Start and end are the earliest and latest defined timestamps; points without a time
      take no part; both are the sentinels exactly when no point has a time. */
  lemma {:induction false} TimeSpanOfBounds(pts: seq<Point>)
    ensures TimeSpanOf(pts).start.None? <==> Untimed(pts)
    ensures TimeSpanOf(pts).end.None? <==> Untimed(pts)
    ensures TimeSpanOf(pts).start.Some? ==> IsEarliest(pts, TimeSpanOf(pts).start.value)
    ensures TimeSpanOf(pts).end.Some? ==> IsLatest(pts, TimeSpanOf(pts).end.value)
  {
    if pts != [] {
      var q, p := pts[..|pts| - 1], pts[|pts| - 1];
      TimeSpanOfBounds(q);
      var s, r := TimeSpanOf(q), TimeSpanOf(pts);
      var last := |pts| - 1;
      assert forall i :: 0 <= i < |q| ==> pts[i] == q[i];
      assert pts[last] == p;
      if r.start.Some? && r.start != p.time {
        var i :| 0 <= i < |q| && q[i].time == s.start;
        assert pts[i].time == r.start;
      }
      if r.end.Some? && r.end != p.time {
        var i :| 0 <= i < |q| && q[i].time == s.end;
        assert pts[i].time == r.end;
      }
    }
  }

  lemma JoinAssociative(a: TimeSpan, b: TimeSpan, c: TimeSpan)
    ensures Join(Join(a, b), c) == Join(a, Join(b, c))
  {
  }

  /** The span of two concatenated lists is the join of their spans: the track's loop over
      per-segment spans gives the span of all its points. */
  lemma {:induction false} TimeSpanOfAppend(xs: seq<Point>, ys: seq<Point>)
    ensures TimeSpanOf(xs + ys) == Join(TimeSpanOf(xs), TimeSpanOf(ys))
  {
    if ys == [] {
      assert xs + ys == xs;
    } else {
      var ys', p := ys[..|ys| - 1], ys[|ys| - 1];
      assert (xs + ys)[..|xs + ys| - 1] == xs + ys';
      TimeSpanOfAppend(xs, ys');
      assert [p][..0] == [];
      assert Widen(TimeSpanOf(xs + ys'), p) == Join(TimeSpanOf(xs + ys'), TimeSpanOf([p]));
      assert Widen(TimeSpanOf(ys'), p) == Join(TimeSpanOf(ys'), TimeSpanOf([p]));
      JoinAssociative(TimeSpanOf(xs), TimeSpanOf(ys'), TimeSpanOf([p]));
    }
  }
}
