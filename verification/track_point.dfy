/** A single GPS sample of a track and the numeric readings the aggregates take from it. */
module TrackPoints {
  import opened Wrappers

  /** The options object handed to the point constructor by the parsers. */
  datatype PointOptions = PointOptions(
    lat: real, lon: real,
    time: Option<int>,        // milliseconds since the epoch
    speed: Option<real>,      // device speed, metres per second
    dist: Option<real>, dtime: Option<real>, avgSpeed: Option<real>)

  /** A track point: position in degrees, an optional timestamp in milliseconds, an optional
      device speed, and the three fields that the segment's derive pass fills in
      (`None` stands for `null`). */
  datatype Point = Point(
    lat: real, lon: real,
    time: Option<int>,
    speed: Option<real>,
    dist: Option<real>,       // metres from the previous point of the segment
    dtime: Option<real>,      // seconds from the previous point of the segment
    avgSpeed: Option<real>)   // dist / dtime

  /** `x || null` on an optional number: zero is falsy and turns into `null`. */
  function OrNull(x: Option<real>): Option<real> {
    if x.Some? && x.value != 0.0 then x else None
  }

  /** The point constructor: every falsy number becomes `null`, so a recorded speed of
      zero cannot be told apart from a missing one. Latitude and longitude are kept as
      numbers (a `null` coordinate reads as 0 in every later comparison and sum). */
  function NewTrackPoint(opt: PointOptions): (p: Point)
    ensures p.lat == opt.lat && p.lon == opt.lon && p.time == opt.time
    ensures p.speed.Some? <==> opt.speed.Some? && opt.speed.value != 0.0
    ensures p.speed.Some? ==> p.speed == opt.speed
    ensures p.dist.Some? <==> opt.dist.Some? && opt.dist.value != 0.0
    ensures p.dist.Some? ==> p.dist == opt.dist
    ensures p.dtime.Some? <==> opt.dtime.Some? && opt.dtime.value != 0.0
    ensures p.dtime.Some? ==> p.dtime == opt.dtime
    ensures p.avgSpeed.Some? <==> opt.avgSpeed.Some? && opt.avgSpeed.value != 0.0
    ensures p.avgSpeed.Some? ==> p.avgSpeed == opt.avgSpeed
    ensures IsMoving(p) <==> opt.speed.Some? && opt.speed.value != 0.0
  {
    Point(opt.lat, opt.lon, opt.time, OrNull(opt.speed),
          OrNull(opt.dist), OrNull(opt.dtime), OrNull(opt.avgSpeed))
  }

  /** A point is moving when its speed is truthy: present and non-zero. */
  predicate IsMoving(p: Point) {
    p.speed.Some? && p.speed.value != 0.0
  }

  /** `+p.speed`: the device speed as a number, `null` reading as 0. */
  function SpeedOf(p: Point): real {
    p.speed.GetOr(0.0)
  }

  /** `p.avgSpeed` in a comparison or a sum: `null` reads as 0. */
  function AvgSpeedOf(p: Point): real {
    p.avgSpeed.GetOr(0.0)
  }

  /** The timestamp in a subtraction: a `null` time reads as 0. */
  function TimeMs(p: Point): int {
    p.time.GetOr(0)
  }

  /** A great-circle distance in metres between (lat1, lon1) and (lat2, lon2) on a sphere
      of fixed radius. The haversine formula itself is not modelled: every operation that
      measures distance takes the metric as a parameter. */
  type Metric = (real, real, real, real) -> real

  /** `p.distanceTo(q)` under metric `d`. */
  function Leg(d: Metric, p: Point, q: Point): real {
    d(p.lat, p.lon, q.lat, q.lon)
  }

  /** The one property of the haversine distance the lemmas rely on: a point is at
      distance 0 from itself. */
  ghost predicate ZeroOnSelf(d: Metric) {
    forall lat: real, lon: real :: d(lat, lon, lat, lon) == 0.0
  }

  /** Two points carry the same recorded data (position, time and device speed). */
  predicate SameReading(p: Point, q: Point) {
    p.lat == q.lat && p.lon == q.lon && p.time == q.time && p.speed == q.speed
  }
}
