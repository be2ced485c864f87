/** Building points, segments and tracks from the child nodes of a parsed document: only
    the filter and null-on-empty rules; walking the document tree is not modelled. */
module Assembly {
  import opened Wrappers
  import opened TrackPoints

  /** A child node of a segment element: a `trkpt` element, already reduced to the
      constructor options, or any other node. */
  datatype PointNode = Trkpt(opt: PointOptions) | OtherPointNode

  /** A child node of a track element. */
  datatype SegmentNode = Trkseg(children: seq<PointNode>) | OtherSegmentNode

  /** A track element or any other node. */
  datatype TrackNode = Trk(segments: seq<SegmentNode>) | OtherTrackNode

  /** How many entries of a list of possibly-null results are non-null, counted from the
      front. */
  function CountSome<T>(xs: seq<Option<T>>): nat {
    if xs == [] then 0 else (if xs[0].Some? then 1 else 0) + CountSome(xs[1..])
  }

  lemma {:induction false} CountSomeSnoc<T>(xs: seq<Option<T>>, x: Option<T>)
    ensures CountSome(xs + [x]) == CountSome(xs) + (if x.Some? then 1 else 0)
  {
    if xs != [] {
      assert (xs + [x])[1..] == xs[1..] + [x];
      CountSomeSnoc(xs[1..], x);
    }
  }

  /** `filter(truthy)` over a list of possibly-null results: the non-null values, each
      once and in their original order. The value at index `i` of the input lands at the
      index given by the number of non-null entries before it. */
  function Present<T>(xs: seq<Option<T>>): (r: seq<T>)
    ensures |r| == CountSome(xs) <= |xs|
    ensures forall i :: 0 <= i < |xs| && xs[i].Some? ==>
      CountSome(xs[..i]) < |r| && r[CountSome(xs[..i])] == xs[i].value
    ensures r == [] <==> forall i :: 0 <= i < |xs| ==> xs[i].None?
    ensures forall i :: 0 <= i < |r| ==> Some(r[i]) in xs
  {
    if xs == [] then []
    else
      var n := |xs| - 1;
      var init := Present(xs[..n]);
      assert xs[..n] + [xs[n]] == xs;
      CountSomeSnoc(xs[..n], xs[n]);
      assert forall i :: 0 <= i < n ==> xs[..n][i] == xs[i] && xs[..n][..i] == xs[..i];
      init + (if xs[n].Some? then [xs[n].value] else [])
  }

  /** `TrackPoint.fromDOM`: `null` for a node that is not a `trkpt`, otherwise a new point. */
  function PointFromDOM(n: PointNode): (r: Option<Point>)
    ensures r.None? <==> n.OtherPointNode?
    ensures r.Some? ==> r.value == NewTrackPoint(n.opt)
  {
    match n
    case Trkpt(opt) => Some(NewTrackPoint(opt))
    case OtherPointNode => None
  }

  /** The number of `trkpt` nodes in a list of child nodes. */
  function TrkptCount(cs: seq<PointNode>): nat {
    if cs == [] then 0 else (if cs[0].Trkpt? then 1 else 0) + TrkptCount(cs[1..])
  }

  /** `childNodes.map(TrackPoint.fromDOM)`. */
  function PointResults(cs: seq<PointNode>): (r: seq<Option<Point>>)
    ensures |r| == |cs|
    ensures forall i :: 0 <= i < |cs| ==> r[i] == PointFromDOM(cs[i])
  {
    seq(|cs|, i requires 0 <= i < |cs| => PointFromDOM(cs[i]))
  }

  lemma {:induction false} PointResultsCount(cs: seq<PointNode>)
    ensures CountSome(PointResults(cs)) == TrkptCount(cs)
  {
    if cs != [] {
      assert PointResults(cs)[1..] == PointResults(cs[1..]);
      PointResultsCount(cs[1..]);
    }
  }

  lemma PointResultsPrefixes(cs: seq<PointNode>)
    ensures forall i :: 0 <= i <= |cs| ==> CountSome(PointResults(cs)[..i]) == TrkptCount(cs[..i])
  {
    forall i | 0 <= i <= |cs|
      ensures CountSome(PointResults(cs)[..i]) == TrkptCount(cs[..i])
    {
      assert PointResults(cs)[..i] == PointResults(cs[..i]);
      PointResultsCount(cs[..i]);
    }
  }

  /** `TrackSegment.fromDOM`: `null` for a node that is not a `trkseg` or whose children
      hold no `trkpt`; otherwise one point per `trkpt` child, in document order. */
  function SegmentFromDOM(n: SegmentNode): (r: Option<seq<Point>>)
    ensures n.OtherSegmentNode? ==> r.None?
    ensures n.Trkseg? ==>
      (r.None? <==> forall i :: 0 <= i < |n.children| ==> n.children[i].OtherPointNode?)
    ensures r.Some? ==> r.value != [] && |r.value| == TrkptCount(n.children)
    ensures r.Some? ==> forall i :: 0 <= i < |n.children| && n.children[i].Trkpt? ==>
      TrkptCount(n.children[..i]) < |r.value| &&
      r.value[TrkptCount(n.children[..i])] == NewTrackPoint(n.children[i].opt)
  {
    match n
    case OtherSegmentNode => None
    case Trkseg(children) =>
      PointResultsCount(children);
      PointResultsPrefixes(children);
      var pts := Present(PointResults(children));
      if pts == [] then None else Some(pts)
  }

  /** The number of nodes in a list that `TrackSegment.fromDOM` turns into a segment. */
  function SegmentCount(ns: seq<SegmentNode>): nat {
    if ns == [] then 0 else (if SegmentFromDOM(ns[0]).Some? then 1 else 0) + SegmentCount(ns[1..])
  }

  /** `childNodes.map(TrackSegment.fromDOM)`. */
  function SegmentResults(ns: seq<SegmentNode>): (r: seq<Option<seq<Point>>>)
    ensures |r| == |ns|
    ensures forall i :: 0 <= i < |ns| ==> r[i] == SegmentFromDOM(ns[i])
  {
    seq(|ns|, i requires 0 <= i < |ns| => SegmentFromDOM(ns[i]))
  }

  lemma {:induction false} SegmentResultsCount(ns: seq<SegmentNode>)
    ensures CountSome(SegmentResults(ns)) == SegmentCount(ns)
  {
    if ns != [] {
      assert SegmentResults(ns)[1..] == SegmentResults(ns[1..]);
      SegmentResultsCount(ns[1..]);
    }
  }

  lemma SegmentResultsPrefixes(ns: seq<SegmentNode>)
    ensures forall i :: 0 <= i <= |ns| ==> CountSome(SegmentResults(ns)[..i]) == SegmentCount(ns[..i])
  {
    forall i | 0 <= i <= |ns|
      ensures CountSome(SegmentResults(ns)[..i]) == SegmentCount(ns[..i])
    {
      assert SegmentResults(ns)[..i] == SegmentResults(ns[..i]);
      SegmentResultsCount(ns[..i]);
    }
  }

  /** Every segment a list of nodes yields is non-empty. */
  lemma YieldedSegmentsNonEmpty(ns: seq<SegmentNode>)
    ensures forall k :: 0 <= k < |Present(SegmentResults(ns))| ==> Present(SegmentResults(ns))[k] != []
  {
    var res := SegmentResults(ns);
    forall k | 0 <= k < |Present(res)|
      ensures Present(res)[k] != []
    {
      assert Some(Present(res)[k]) in res;
      var i :| 0 <= i < |res| && res[i] == Some(Present(res)[k]);
      assert SegmentFromDOM(ns[i]).Some?;
    }
  }

  /** `Track.fromDOM`: `null` for a node that is not a `trk` or that yields no segment;
      otherwise the non-null segments of its children, in document order. Every segment
      of a track built this way is non-empty. */
  function TrackFromDOM(n: TrackNode): (r: Option<seq<seq<Point>>>)
    ensures n.OtherTrackNode? ==> r.None?
    ensures n.Trk? ==>
      (r.None? <==> forall i :: 0 <= i < |n.segments| ==> SegmentFromDOM(n.segments[i]).None?)
    ensures r.Some? ==> |r.value| == SegmentCount(n.segments)
    ensures r.Some? ==> forall i :: 0 <= i < |n.segments| && SegmentFromDOM(n.segments[i]).Some? ==>
      SegmentCount(n.segments[..i]) < |r.value| &&
      r.value[SegmentCount(n.segments[..i])] == SegmentFromDOM(n.segments[i]).value
    ensures r.Some? ==> r.value != [] && forall k :: 0 <= k < |r.value| ==> r.value[k] != []
  {
    match n
    case OtherTrackNode => None
    case Trk(nodes) =>
      SegmentResultsCount(nodes);
      SegmentResultsPrefixes(nodes);
      YieldedSegmentsNonEmpty(nodes);
      var segs := Present(SegmentResults(nodes));
      if segs == [] then None else Some(segs)
  }
}
