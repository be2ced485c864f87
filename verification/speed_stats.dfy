/** The speed statistics record, the per-point fold that builds it for a segment and the
    merge that combines two records for a track. */
module SpeedStats {
  import opened Wrappers
  import opened TrackPoints

  /** An extremum together with the point where it was found (`min` with `minAt`, ...).
      `None` stands for the infinite sentinel of gpx.js paired with a `null` point. */
  datatype Extreme = Extreme(value: real, at: Point)

  datatype SpeedInfo = SpeedInfo(
    moving: nat, still: nat, total: nat,
    min: Option<Extreme>, max: Option<Extreme>,              // device speed
    sum: real, avg: Option<real>,
    avgMin: Option<Extreme>, avgMax: Option<Extreme>,        // derived average speed
    avgSum: real, avgAvg: Option<real>)

  /** The record both `speedInfo` implementations start from. */
  const Initial := SpeedInfo(0, 0, 0, None, None, 0.0, Some(0.0), None, None, 0.0, Some(0.0))

  /** `x < e`, with `None` as +Infinity. */
  predicate Below(x: real, e: Option<Extreme>) {
    e.None? || x < e.value.value
  }

  /** `x > e`, with `None` as -Infinity. */
  predicate Above(x: real, e: Option<Extreme>) {
    e.None? || x > e.value.value
  }

  /** `b` replaces `a` only when strictly smaller: on a tie the earlier one stays. */
  function PickMin(a: Option<Extreme>, b: Option<Extreme>): Option<Extreme> {
    if b.Some? && Below(b.value.value, a) then b else a
  }

  /** `b` replaces `a` only when strictly larger: on a tie the earlier one stays. */
  function PickMax(a: Option<Extreme>, b: Option<Extreme>): Option<Extreme> {
    if b.Some? && Above(b.value.value, a) then b else a
  }

  /** `x / n`; `None` for the not-a-number that 0 / 0 gives. */
  function Div(x: real, n: nat): Option<real> {
    if n == 0 then None else Some(x / n as real)
  }

  /** One `forEach` step of the segment's `speedInfo`: a still point only counts; a moving
      point counts and feeds both the device-speed and the average-speed statistics. */
  function Step(acc: SpeedInfo, p: Point): SpeedInfo {
    if !IsMoving(p) then acc.(still := acc.still + 1)
    else acc.(moving := acc.moving + 1,
              min := PickMin(acc.min, Some(Extreme(SpeedOf(p), p))),
              max := PickMax(acc.max, Some(Extreme(SpeedOf(p), p))),
              sum := acc.sum + SpeedOf(p),
              avgMin := PickMin(acc.avgMin, Some(Extreme(AvgSpeedOf(p), p))),
              avgMax := PickMax(acc.avgMax, Some(Extreme(AvgSpeedOf(p), p))),
              avgSum := acc.avgSum + AvgSpeedOf(p))
  }

  /** The accumulator after the `forEach` over a point list. */
  function Tally(pts: seq<Point>): SpeedInfo {
    if pts == [] then Initial else Step(Tally(pts[..|pts| - 1]), pts[|pts| - 1])
  }

  /** The closing assignments: both averages from the sums. */
  function Finish(r: SpeedInfo): SpeedInfo {
    r.(avg := Div(r.sum, r.moving), avgAvg := Div(r.avgSum, r.total))
  }

  /** A segment's `speedInfo` over its point list. */
  function SpeedInfoOf(pts: seq<Point>): SpeedInfo {
    Finish(Tally(pts).(total := |pts|))
  }

  /** The field-wise part of the track's merge: counts and sums add, extrema keep the
      earlier record's on a tie. The averages are left as in `a`. */
  function Combine(a: SpeedInfo, b: SpeedInfo): SpeedInfo {
    a.(moving := a.moving + b.moving, still := a.still + b.still, total := a.total + b.total,
       min := PickMin(a.min, b.min), max := PickMax(a.max, b.max), sum := a.sum + b.sum,
       avgMin := PickMin(a.avgMin, b.avgMin), avgMax := PickMax(a.avgMax, b.avgMax),
       avgSum := a.avgSum + b.avgSum)
  }

  /** One reduce step of the track's `speedInfo`: combine, then recompute both averages
      from the merged sums and counts (not as a mean of means). */
  function Merge(a: SpeedInfo, b: SpeedInfo): SpeedInfo {
    Finish(Combine(a, b))
  }

  /** A record whose averages agree with its sums and counts. */
  predicate Settled(r: SpeedInfo) {
    r.avg == Div(r.sum, r.moving) && r.avgAvg == Div(r.avgSum, r.total)
  }

  // ---- the instantaneous and the average statistics, side by side

  datatype Measure = Instant | Average

  function Reading(m: Measure, p: Point): real {
    match m
    case Instant => SpeedOf(p)
    case Average => AvgSpeedOf(p)
  }

  function Lowest(r: SpeedInfo, m: Measure): Option<Extreme> {
    match m
    case Instant => r.min
    case Average => r.avgMin
  }

  function Highest(r: SpeedInfo, m: Measure): Option<Extreme> {
    match m
    case Instant => r.max
    case Average => r.avgMax
  }

  /** The points the statistics are taken over, in order. */
  function MovingOnly(pts: seq<Point>): (r: seq<Point>)
    ensures |r| <= |pts|
    ensures forall i :: 0 <= i < |r| ==> IsMoving(r[i])
  {
    if pts == [] then []
    else MovingOnly(pts[..|pts| - 1]) + (if IsMoving(pts[|pts| - 1]) then [pts[|pts| - 1]] else [])
  }

  function SumOf(m: Measure, pts: seq<Point>): real {
    if pts == [] then 0.0 else SumOf(m, pts[..|pts| - 1]) + Reading(m, pts[|pts| - 1])
  }

  /** No point of the list is moving. */
  ghost predicate AllStill(pts: seq<Point>) {
    forall i :: 0 <= i < |pts| ==> !IsMoving(pts[i])
  }

  /** `e` holds the smallest reading among the moving points, taken at the first moving
      point that attains it. */
  ghost predicate FirstLowest(pts: seq<Point>, m: Measure, e: Extreme) {
    && (exists i :: 0 <= i < |pts| && IsMoving(pts[i]) && e == Extreme(Reading(m, pts[i]), pts[i])
                    && forall j :: 0 <= j < i && IsMoving(pts[j]) ==> e.value < Reading(m, pts[j]))
    && (forall j :: 0 <= j < |pts| && IsMoving(pts[j]) ==> e.value <= Reading(m, pts[j]))
  }

  /** `e` holds the largest reading among the moving points, taken at the first moving
      point that attains it. */
  ghost predicate FirstHighest(pts: seq<Point>, m: Measure, e: Extreme) {
    && (exists i :: 0 <= i < |pts| && IsMoving(pts[i]) && e == Extreme(Reading(m, pts[i]), pts[i])
                    && forall j :: 0 <= j < i && IsMoving(pts[j]) ==> Reading(m, pts[j]) < e.value)
    && (forall j :: 0 <= j < |pts| && IsMoving(pts[j]) ==> Reading(m, pts[j]) <= e.value)
  }

  // ---- the segment's statistics

  /** Counts and sums of the segment fold: `moving` counts the points with a truthy speed
      and `still` the others; `sum` and `avgSum` add up the device speeds and the average
      speeds of the moving points only. */
  lemma {:induction false} TallyCounts(pts: seq<Point>)
    ensures Tally(pts).moving == |MovingOnly(pts)|
    ensures Tally(pts).still == |pts| - |MovingOnly(pts)|
    ensures Tally(pts).total == 0
    ensures Tally(pts).sum == SumOf(Instant, MovingOnly(pts))
    ensures Tally(pts).avgSum == SumOf(Average, MovingOnly(pts))
  {
    if pts != [] {
      var q, p := pts[..|pts| - 1], pts[|pts| - 1];
      TallyCounts(q);
      if IsMoving(p) {
        var mq := MovingOnly(q);
        assert MovingOnly(pts) == mq + [p];
        assert (mq + [p])[..|mq|] == mq;
      } else {
        assert MovingOnly(pts) == MovingOnly(q);
      }
    }
  }

  lemma LowestStep(acc: SpeedInfo, p: Point, m: Measure)
    ensures !IsMoving(p) ==> Lowest(Step(acc, p), m) == Lowest(acc, m)
    ensures !IsMoving(p) ==> Highest(Step(acc, p), m) == Highest(acc, m)
    ensures IsMoving(p) ==>
      Lowest(Step(acc, p), m) == PickMin(Lowest(acc, m), Some(Extreme(Reading(m, p), p)))
    ensures IsMoving(p) ==>
      Highest(Step(acc, p), m) == PickMax(Highest(acc, m), Some(Extreme(Reading(m, p), p)))
  {
  }

  /** The minimum of the segment fold: absent exactly when no point moves, otherwise the
      smallest reading over the moving points, at the first point attaining it (strict `<`
      keeps the earliest). */
  lemma {:induction false} TallyLowest(pts: seq<Point>, m: Measure)
    ensures Lowest(Tally(pts), m).None? <==> AllStill(pts)
    ensures Lowest(Tally(pts), m).Some? ==> FirstLowest(pts, m, Lowest(Tally(pts), m).value)
  {
    if pts != [] {
      var q, p := pts[..|pts| - 1], pts[|pts| - 1];
      var n := |q|;
      TallyLowest(q, m);
      LowestStep(Tally(q), p, m);
      assert forall j :: 0 <= j < n ==> pts[j] == q[j];
      assert pts[n] == p;
      var old_ := Lowest(Tally(q), m);
      var new_ := Lowest(Tally(pts), m);
      if new_.Some? {
        var e := new_.value;
        if IsMoving(p) && new_ == Some(Extreme(Reading(m, p), p)) && (old_.None? || Reading(m, p) < old_.value.value) {
          assert IsMoving(pts[n]) && e == Extreme(Reading(m, pts[n]), pts[n]);
          assert forall j :: 0 <= j < n && IsMoving(pts[j]) ==> e.value < Reading(m, pts[j]);
        } else {
          assert new_ == old_;
          var i :| 0 <= i < n && IsMoving(q[i]) && e == Extreme(Reading(m, q[i]), q[i])
                   && forall j :: 0 <= j < i && IsMoving(q[j]) ==> e.value < Reading(m, q[j]);
          assert IsMoving(pts[i]) && e == Extreme(Reading(m, pts[i]), pts[i]);
        }
      }
    }
  }

  /** The maximum of the segment fold: absent exactly when no point moves, otherwise the
      largest reading over the moving points, at the first point attaining it. */
  lemma {:induction false} TallyHighest(pts: seq<Point>, m: Measure)
    ensures Highest(Tally(pts), m).None? <==> AllStill(pts)
    ensures Highest(Tally(pts), m).Some? ==> FirstHighest(pts, m, Highest(Tally(pts), m).value)
  {
    if pts != [] {
      var q, p := pts[..|pts| - 1], pts[|pts| - 1];
      var n := |q|;
      TallyHighest(q, m);
      LowestStep(Tally(q), p, m);
      assert forall j :: 0 <= j < n ==> pts[j] == q[j];
      assert pts[n] == p;
      var old_ := Highest(Tally(q), m);
      var new_ := Highest(Tally(pts), m);
      if new_.Some? {
        var e := new_.value;
        if IsMoving(p) && new_ == Some(Extreme(Reading(m, p), p)) && (old_.None? || Reading(m, p) > old_.value.value) {
          assert IsMoving(pts[n]) && e == Extreme(Reading(m, pts[n]), pts[n]);
          assert forall j :: 0 <= j < n && IsMoving(pts[j]) ==> Reading(m, pts[j]) < e.value;
        } else {
          assert new_ == old_;
          var i :| 0 <= i < n && IsMoving(q[i]) && e == Extreme(Reading(m, q[i]), q[i])
                   && forall j :: 0 <= j < i && IsMoving(q[j]) ==> Reading(m, q[j]) < e.value;
          assert IsMoving(pts[i]) && e == Extreme(Reading(m, pts[i]), pts[i]);
        }
      }
    }
  }

  /** A segment's `speedInfo`: `total` is the number of points and `moving + still` adds up
      to it; `avg` divides the moving points' speed sum by their count, while `avgAvg`
      divides the moving points' average-speed sum by ALL points. */
  lemma SpeedInfoOfCounts(pts: seq<Point>)
    ensures SpeedInfoOf(pts).total == |pts|
    ensures SpeedInfoOf(pts).moving + SpeedInfoOf(pts).still == |pts|
    ensures SpeedInfoOf(pts).moving == |MovingOnly(pts)|
    ensures SpeedInfoOf(pts).sum == SumOf(Instant, MovingOnly(pts))
    ensures SpeedInfoOf(pts).avgSum == SumOf(Average, MovingOnly(pts))
    ensures SpeedInfoOf(pts).avg == Div(SumOf(Instant, MovingOnly(pts)), |MovingOnly(pts)|)
    ensures SpeedInfoOf(pts).avgAvg == Div(SumOf(Average, MovingOnly(pts)), |pts|)
    ensures Settled(SpeedInfoOf(pts))
  {
    TallyCounts(pts);
  }

  /** The extrema of a segment's `speedInfo`, device and average speed alike, range over
      the moving points only, and ties keep the earliest point. */
  lemma SpeedInfoOfExtrema(pts: seq<Point>, m: Measure)
    ensures Lowest(SpeedInfoOf(pts), m).None? <==> AllStill(pts)
    ensures Highest(SpeedInfoOf(pts), m).None? <==> AllStill(pts)
    ensures Lowest(SpeedInfoOf(pts), m).Some? ==> FirstLowest(pts, m, Lowest(SpeedInfoOf(pts), m).value)
    ensures Highest(SpeedInfoOf(pts), m).Some? ==> FirstHighest(pts, m, Highest(SpeedInfoOf(pts), m).value)
  {
    TallyLowest(pts, m);
    TallyHighest(pts, m);
  }

  // ---- the merge

  lemma PickMinAssociative(a: Option<Extreme>, b: Option<Extreme>, c: Option<Extreme>)
    ensures PickMin(PickMin(a, b), c) == PickMin(a, PickMin(b, c))
  {
  }

  lemma PickMaxAssociative(a: Option<Extreme>, b: Option<Extreme>, c: Option<Extreme>)
    ensures PickMax(PickMax(a, b), c) == PickMax(a, PickMax(b, c))
  {
  }

  lemma CombineAssociative(a: SpeedInfo, b: SpeedInfo, c: SpeedInfo)
    ensures Combine(Combine(a, b), c) == Combine(a, Combine(b, c))
  {
    PickMinAssociative(a.min, b.min, c.min);
    PickMaxAssociative(a.max, b.max, c.max);
    PickMinAssociative(a.avgMin, b.avgMin, c.avgMin);
    PickMaxAssociative(a.avgMax, b.avgMax, c.avgMax);
  }

  /** The track's merge is associative, so the order in which segments are grouped does
      not matter (over exact arithmetic). */
  lemma MergeAssociative(a: SpeedInfo, b: SpeedInfo, c: SpeedInfo)
    ensures Merge(Merge(a, b), c) == Merge(a, Merge(b, c))
  {
    CombineAssociative(a, b, c);
    assert Finish(Combine(Finish(Combine(a, b)), c)) == Finish(Combine(Combine(a, b), c));
    assert Finish(Combine(a, Finish(Combine(b, c)))) == Finish(Combine(a, Combine(b, c)));
  }

  /** The initial record is an identity of the merge, on either side, for every record
      whose averages agree with its sums (every segment's `speedInfo` and every merge
      result). */
  lemma MergeIdentity(a: SpeedInfo)
    requires Settled(a)
    ensures Merge(Initial, a) == a
    ensures Merge(a, Initial) == a
  {
  }

  /** One fold step is a merge with the one-point tally. */
  lemma StepIsCombine(acc: SpeedInfo, p: Point)
    ensures Step(acc, p) == Combine(acc, Tally([p]))
  {
    assert [p][..0] == [];
  }

  lemma TallySnoc(s: seq<Point>, p: Point)
    ensures Tally(s + [p]) == Step(Tally(s), p)
  {
    assert (s + [p])[..|s|] == s;
  }

  lemma CombineInitial(a: SpeedInfo)
    ensures Combine(a, Initial) == a
  {
  }

  /** Folding two concatenated point lists is combining their folds. */
  lemma {:induction false} TallyAppend(xs: seq<Point>, ys: seq<Point>)
    ensures Tally(xs + ys) == Combine(Tally(xs), Tally(ys))
  {
    if ys == [] {
      assert xs + ys == xs;
      CombineInitial(Tally(xs));
    } else {
      var ys', p := ys[..|ys| - 1], ys[|ys| - 1];
      assert xs + ys == (xs + ys') + [p];
      var tx, ty', tp := Tally(xs), Tally(ys'), Tally([p]);
      calc {
        Tally(xs + ys);
        { TallySnoc(xs + ys', p); }
        Step(Tally(xs + ys'), p);
        { TallyAppend(xs, ys'); }
        Step(Combine(tx, ty'), p);
        { StepIsCombine(Combine(tx, ty'), p); }
        Combine(Combine(tx, ty'), tp);
        { CombineAssociative(tx, ty', tp); }
        Combine(tx, Combine(ty', tp));
        { StepIsCombine(ty', p); }
        Combine(tx, Step(ty', p));
        Combine(tx, Tally(ys));
      }
    }
  }

  /** Merging the `speedInfo` of two point lists gives the `speedInfo` of their
      concatenation: counts and sums add, averages come from the merged sums, and the
      earlier list's extremum wins a tie. */
  lemma {:induction false} MergeSpeedInfoOf(xs: seq<Point>, ys: seq<Point>)
    ensures Merge(SpeedInfoOf(xs), SpeedInfoOf(ys)) == SpeedInfoOf(xs + ys)
  {
    TallyAppend(xs, ys);
    TallyCounts(xs);
    TallyCounts(ys);
    var cx, cy := Tally(xs).(total := |xs|), Tally(ys).(total := |ys|);
    assert Combine(cx, cy) == Combine(Tally(xs), Tally(ys)).(total := |xs| + |ys|);
  }

  function ValueOf(e: Option<Extreme>): Option<real> {
    if e.None? then None else Some(e.value.value)
  }

  /** Merging in the other order gives the same counts, sums, averages and extreme values;
      only the point recorded for a tied extremum can differ, since ties keep the earlier
      record's point. */
  lemma MergeOrderKeepsValues(a: SpeedInfo, b: SpeedInfo)
    ensures Merge(a, b).moving == Merge(b, a).moving && Merge(a, b).still == Merge(b, a).still
    ensures Merge(a, b).total == Merge(b, a).total
    ensures Merge(a, b).sum == Merge(b, a).sum && Merge(a, b).avgSum == Merge(b, a).avgSum
    ensures Merge(a, b).avg == Merge(b, a).avg && Merge(a, b).avgAvg == Merge(b, a).avgAvg
    ensures ValueOf(Merge(a, b).min) == ValueOf(Merge(b, a).min)
    ensures ValueOf(Merge(a, b).max) == ValueOf(Merge(b, a).max)
    ensures ValueOf(Merge(a, b).avgMin) == ValueOf(Merge(b, a).avgMin)
    ensures ValueOf(Merge(a, b).avgMax) == ValueOf(Merge(b, a).avgMax)
  {
  }
}
