# GPX track analytics, modelled in Dafny

This project models the track analytics engine of a GPX viewer (`gpx.js`). The engine has three levels:

- A **track point** holds a position, an optional timestamp and an optional device speed. It also has three fields that are derived later: `dist`, `dtime` and `avgSpeed`.
- A **track segment** holds an array of points. Its derive pass (`computeAverages`) fills in the derived fields in place. Its queries are `firstPoint`, `lastPoint`, `totalDistance`, `bbox`, `timeInfo` and `speedInfo`.
- A **track** holds a list of segments. It rolls the segment queries up with folds, and adds `totalPoints`.

The main result is that every track-level aggregate equals the segment-level query over the concatenated points. Two exceptions are stated exactly:

- distance adds no leg across a segment boundary;
- a track without segments gets the initial statistics record.

Files and modules:

- `wrappers.dfy` (`Wrappers`): `Option`, used for `null` and for the infinite sentinels.
- `track_point.dfy` (`TrackPoints`): the point, its constructor with the falsy-to-`null` coercion, and the numeric readings (`null` reads as 0). It also defines the distance metric, which is a parameter.
- `segments.dfy` (`Segments`): the derive pass as a function of the point list, and the path length.
- `extents.dfy` (`Extents`): the bounding box and the time span, with their combining steps.
- `speed_stats.dfy` (`SpeedStats`): the `speedInfo` record, the per-point fold and the track's merge.
- `tracks.dfy` (`Tracks`): the track-level folds over the segments' point lists, and the theorems that tie them to the concatenated points.
- `assembly.dfy` (`Assembly`): the filter and null-on-empty rules of the `fromDOM` builders.
- `gpx.dfy` (`Gpx`): the classes.
  - `TrackSegment` owns an `array<Point>`. Its derive pass and its looping queries are methods; the pure queries are functions.
  - `Track` owns a `seq<TrackSegment>`. Every member is proved against the functions above.

Representation choices:

- A sentinel `Infinity` together with a `null` `*At` point is `None`. A `min`/`minAt` pair is one `Option<Extreme>`.
- `EmptyBox` is the bounding-box sentinel `{+Inf, -Inf, +Inf, -Inf}`.
- `0 / 0` (NaN) is `None`.
- Timestamps are integer milliseconds. Speeds and distances are exact reals.

Behaviour of gpx.js that the model keeps:

- **Missing timestamps.** The derive pass subtracts timestamps, and a `null` time counts as 0 in that subtraction. When only one of two consecutive points has a time, the step is an ordinary but large number, negative when the later point is the one without a time. When both points lack a time the step is 0. gpx.js then stores `Infinity` or NaN as `avgSpeed`, and the model stores `None` (see the zero-time-step line under "## Left out").
- **Average-speed statistics.** The `speedInfo` loop returns early for still points. So `avgMin`, `avgMax`, `avgSum` and their points come from the moving points only. `avgAvg` still divides `avgSum` by the number of all points.
- **Track ends.** `Track.firstPoint` looks only at the first segment and `Track.lastPoint` only at the last. An empty end segment gives `null` even when other segments have points. Tracks built by `Track.fromDOM` never contain an empty segment; `Track.fromXML` can keep one.
- **Empty-input averages.** A segment with no moving point has `avg` = NaN (`None`). A track with no segments returns the initial record, whose `avg` and `avgAvg` are 0.

## Model

| member | source | states |
|---|---|---|
| TrackPoints.NewTrackPoint | gpx.js:13-22 | Keeps position and time. Each of `speed`, `dist`, `dtime` and `avgSpeed` is kept when it is given and non-zero, and is `null` otherwise. The point is moving exactly when a non-zero speed was given. |
| Segments.DeriveAt | gpx.js:118-135 | After the derive pass, every point keeps its recorded data and its place. The first point has dist = dtime = avgSpeed = 0. Point i ≥ 1 has the leg from point i-1 as `dist`, the time step in seconds as `dtime`, and their ratio as `avgSpeed`. |
| Segments.DeriveIdempotent | gpx.js:113-138 | Running the derive pass twice gives the same points as running it once. |
| Segments.DerivedDistancesSumToPath | gpx.js:124-135 | The stored `dist` fields of a derived segment add up to its path length. |
| Segments.SegmentDistance | gpx.js:156-167 | The distance is 0 for an empty segment. If the metric is 0 from a point to itself, it is the sum of the legs between consecutive points. |
| Segments.PathLengthAppend | gpx.js:161-166 | Joining two non-empty point lists adds exactly one leg: from the last point of the first list to the first point of the second. |
| Extents.BBoxOfBounds | gpx.js:169-185 | The box is the sentinel exactly for no points. Otherwise it encloses every point and each bound is some point's coordinate. |
| Extents.BBoxOfAppend | gpx.js:328-336 | The box of a concatenation is the component-wise min/max of the two boxes. |
| Extents.TimeSpanOfBounds | gpx.js:187-199 | Start and end are the earliest and latest defined timestamps. Untimed points are ignored. Both are sentinels exactly when no point has a time. |
| Extents.TimeSpanOfAppend | gpx.js:345-349 | The span of a concatenation is the two spans joined with the track's comparisons. |
| SpeedStats.TallyCounts | gpx.js:220-249 | `moving` counts the points with a truthy speed and `still` counts the rest. `sum` and `avgSum` add up the device speeds and the average speeds of the moving points only. |
| SpeedStats.TallyLowest | gpx.js:226-242 | `min` and `avgMin` are absent exactly when no point moves. Otherwise each is the least reading over the moving points, taken at the first point that attains it. |
| SpeedStats.TallyHighest | gpx.js:232-247 | `max` and `avgMax` are absent exactly when no point moves. Otherwise each is the greatest reading over the moving points, taken at the first point that attains it. |
| SpeedStats.SpeedInfoOfCounts | gpx.js:251-253 | `total` is the number of points, and `moving + still == total`. `avg` is the moving speed sum divided by the moving count. `avgAvg` is the moving average-speed sum divided by all points. Each average is NaN when it would divide by 0. |
| SpeedStats.SpeedInfoOfExtrema | gpx.js:220-249 | The segment's four extrema range over the moving points only. On a tie the earliest point is kept. |
| SpeedStats.MergeSpeedInfoOf | gpx.js:355-394 | Merging the records of two point lists gives the record of their concatenation. Averages come from the merged sums, not as a mean of means. |
| SpeedStats.MergeAssociative | gpx.js:355-394 | The track merge is associative. |
| SpeedStats.MergeIdentity | gpx.js:395-411 | The initial record is a left and right identity of the merge for every record whose averages match its sums. |
| SpeedStats.MergeOrderKeepsValues | gpx.js:361-393 | Merging in either order gives the same counts, sums, averages and extreme values. Only the point of a tied extremum can differ. |
| Tracks.CountPoints | gpx.js:316-318 | The sum of the segment lengths is the number of points in the concatenation. |
| Tracks.TrackDistanceSkipsJoins | gpx.js:310-314 | If the metric is 0 on identical points: the track distance plus the legs across boundaries between consecutive non-empty segments equals the path length of all the points. Empty segments add 0. |
| Tracks.TrackBBoxIsFlat | gpx.js:320-337 | The track's folded box is the box of all its points, including the sentinel for none. |
| Tracks.MergeAllIsFlat | gpx.js:354-412 | With at least one segment, the folded merge of the segments' records is the segment `speedInfo` of all points. With no segments it is the initial record. |
| Assembly.Present | gpx.js:103-105 | `filter(truthy)`: keeps each non-null value once, in input order. The value at input index i lands at the index given by the number of non-null entries before i. The length is the number of non-null entries. |
| Assembly.PointFromDOM | gpx.js:39-58 | Returns `null` exactly for a node that is not a `trkpt`. Otherwise returns the constructed point. |
| Assembly.SegmentFromDOM | gpx.js:98-111 | Returns `null` for a non-`trkseg` node, or when no child is a `trkpt`. Otherwise it returns one point per `trkpt` child, in document order: the k-th `trkpt` child gives the k-th point. |
| Assembly.TrackFromDOM | gpx.js:273-287 | Returns `null` for a non-`trk` node, or when no child yields a segment. Otherwise it returns the segments of the children that yield one, in document order: the k-th such child gives the k-th segment. Every segment is non-empty. |
| Gpx.TrackSegment.constructor | gpx.js:83-85 | The segment holds the given array itself. |
| Gpx.TrackSegment.ComputeAverages | gpx.js:113-138 | An empty segment returns `null` and keeps its contents. Otherwise the segment is returned and the array holds the derived points, as given by Segments.Derive on the old contents. |
| Gpx.TrackSegment.FirstPoint | gpx.js:140-146 | `null` exactly for an empty segment; otherwise the point at index 0. |
| Gpx.TrackSegment.LastPoint | gpx.js:148-154 | `null` exactly for an empty segment; otherwise the point at the last index. |
| Gpx.TrackSegment.TotalDistance | gpx.js:156-167 | The loop that threads `prev` computes the folded distance. This is the path length whenever the metric is 0 from a point to itself. |
| Gpx.TrackSegment.BBox | gpx.js:169-185 | The sentinel exactly for an empty segment. Otherwise the smallest box holding every point. |
| Gpx.TrackSegment.TimeInfo | gpx.js:187-199 | The loop computes the time span of the points: the earliest and latest defined times. Both ends are the sentinels exactly when no point has a time. |
| Gpx.TrackSegment.SpeedInfo | gpx.js:201-256 | The loop computes the segment's statistics record, with `moving + still == total == points.Length`. |
| Gpx.Track.constructor | gpx.js:258-260 | The track holds the given segments. |
| Gpx.Track.ComputeAverages | gpx.js:289-292 | Every segment's array holds the derived form of its old contents, even when segments share an array. Returns the track. |
| Gpx.Track.FirstPoint | gpx.js:294-300 | `null` exactly when there is no segment or the first segment is empty. Otherwise the first point of all the points. |
| Gpx.Track.LastPoint | gpx.js:302-308 | `null` exactly when there is no segment or the last segment is empty. Otherwise the last point of all the points. |
| Gpx.Track.TotalDistance | gpx.js:310-314 | 0 without segments. If the metric is 0 on identical points, this plus the legs between consecutive non-empty segments is the path length of all the points. |
| Gpx.Track.TotalPoints | gpx.js:316-318 | The number of points in all the segments together. |
| Gpx.Track.BBox | gpx.js:320-337 | The bounding box of all the track's points. |
| Gpx.Track.TimeInfo | gpx.js:339-352 | The loop over the segments' spans computes the time span of all the track's points. |
| Gpx.Track.SpeedInfo | gpx.js:354-412 | With segments, the segment `speedInfo` of all the track's points. Without segments, the initial record. |

## Left out

- The haversine formula (`gpx.js:61-81`) is not modelled. Every operation that measures distance takes the metric as a parameter. The source's `radius` argument and its default Earth radius are part of that metric. The lemmas assume only that a point is at distance 0 from itself.
- IEEE arithmetic is not modelled:
  - Sums are exact reals, so associativity and order independence hold exactly rather than up to rounding.
  - A time step of 0 gives `Infinity` or NaN as `avgSpeed` in the source. The model stores `None` there, which the statistics read as 0, the same as an underived field.
  - NaN or infinite speeds and coordinates coming from parsing are not represented.
- Gpx.TrackSegment.ComputeAverages: models a zero time step as `None` rather than `Infinity`/NaN, as said above.
- Point identity is not modelled: the `*At` fields hold the point's value, and "first point attaining it" is stated by index. Points are values in the segment's array, and the derive pass replaces each one in place.
- A coordinate of 0 becomes `null` in the constructor. It reads as 0 in every later use, so the model keeps the number.
- Gpx.TrackSegment.constructor: models only the array argument, not the `{points: ...}` options object or the `|| []` default.
- Gpx.Track.constructor: models only the array argument, not the `{segments: ...}` options object or the `|| []` default.
- `TrackPoint.fromXML`, `TrackSegment.fromXML` and `Track.fromXML` (`gpx.js:24-37`, `gpx.js:87-96`, `gpx.js:262-271`) are not modelled. They walk the output of an external XML library. Of the DOM builders, only the rules on node names, filtering and empty results are modelled. Walking the tree and parsing `Date` values are not.
- The user interface and report layers (`index.js`, `main.js`, `colour.js`, `picoinput.js`, `picotemplate.js`, `picolist.js`) are not part of this model. They are DOM binding, file I/O, printing and floating-point colour ramps.
