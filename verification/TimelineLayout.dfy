/** Placement of milestone labels and nodes on the history timeline. */
module TimelineLayout {
  import opened TrackAllocation

  datatype Lane = Above | Below

  /** A milestone as the layout sees it: the instant of its date (milliseconds since
      the epoch, midnight UTC) and the lane its label hangs in. */
  datatype Milestone = Milestone(instant: int, lane: Lane)

  datatype Placement = Placement(labelTrack: nat, nodeOffset: int)

  // 1 January 2026 and 31 October 2026, midnight UTC.
  const TIMELINE_START := 1767225600000
  const TIMELINE_END := 1793404800000

  function Max(a: int, b: int): int { if a < b then b else a }

  function AbsInt(x: int): int { if x < 0 then -x else x }

  function TimelinePosition(instant: int): real {
    2.0 + 96.0 * (instant - TIMELINE_START) as real / (TIMELINE_END - TIMELINE_START) as real
  }

  // Gaps are percentages of the canvas, like the positions.

  function LabelGap(width: real): (gap: real)
    requires width > 0.0
    ensures gap > 0.0
  {
    188.0 / width * 100.0
  }

  function NodeGap(width: real): (gap: real)
    requires width > 0.0
    ensures gap > 0.0
  {
    48.0 / width * 100.0
  }

  /** The canvas is `zoom` viewports wide, a viewport counting at least one pixel. */
  function CanvasWidth(viewportWidth: real, zoom: real): (width: real)
    requires zoom >= 1.0
    ensures width >= 1.0
  {
    (if viewportWidth < 1.0 then 1.0 else viewportWidth) * zoom
  }

  /** Node track 0 sits on the axis, 1 just above it, 2 just below, 3 above that, ... */
  function NodeOffset(track: nat): int {
    if track == 0 then 0
    else if track % 2 == 1 then -48 * ((track + 1) / 2)
    else 48 * ((track + 1) / 2)
  }

  function Positions(milestones: seq<Milestone>): seq<real> {
    seq(|milestones|, i requires 0 <= i < |milestones| => TimelinePosition(milestones[i].instant))
  }

  function LanePositions(milestones: seq<Milestone>, lane: Lane): seq<real> {
    if milestones == [] then []
    else
      var last := milestones[|milestones| - 1];
      LanePositions(milestones[..|milestones| - 1], lane)
      + (if last.lane == lane then [TimelinePosition(last.instant)] else [])
  }

  /** Where `item` goes after the milestones `before` it: first fit among its own lane's
      labels so far, and first fit among all nodes so far. */
  function NextPlacement(before: seq<Milestone>, item: Milestone, labelGap: real, nodeGap: real): Placement {
    var p := TimelinePosition(item.instant);
    Placement(
      FirstFit(LastPositions(LanePositions(before, item.lane), labelGap), p, labelGap),
      NodeOffset(FirstFit(LastPositions(Positions(before), nodeGap), p, nodeGap)))
  }

  function Layout(milestones: seq<Milestone>, width: real): (layout: seq<Placement>)
    requires width > 0.0
    ensures |layout| == |milestones|
  {
    if milestones == [] then []
    else
      var before := milestones[..|milestones| - 1];
      Layout(before, width)
      + [NextPlacement(before, milestones[|milestones| - 1], LabelGap(width), NodeGap(width))]
  }

  /** One milestone moves its own lane's allocator and leaves the other lane's alone. */
  lemma {:induction false} LaneStep(milestones: seq<Milestone>, gap: real, i: nat, lane: Lane)
    requires i < |milestones|
    ensures
      var before := LastPositions(LanePositions(milestones[..i], lane), gap);
      var p := TimelinePosition(milestones[i].instant);
      LastPositions(LanePositions(milestones[..i + 1], lane), gap)
      == if milestones[i].lane == lane then Put(before, FirstFit(before, p, gap), p) else before
  {
    var prefix := milestones[..i + 1];
    assert prefix[..i] == milestones[..i];
    var all := LanePositions(prefix, lane);
    if milestones[i].lane == lane {
      assert all[..|all| - 1] == LanePositions(milestones[..i], lane);
    } else {
      assert all == LanePositions(milestones[..i], lane);
    }
  }

  /** The map holds every lane's last positions after the milestones `before`. */
  predicate HoldsLanes(last: map<Lane, seq<real>>, before: seq<Milestone>, gap: real) {
    && Above in last && last[Above] == LastPositions(LanePositions(before, Above), gap)
    && Below in last && last[Below] == LastPositions(LanePositions(before, Below), gap)
  }

  lemma {:induction false} LanesStep(milestones: seq<Milestone>, gap: real, i: nat, last: map<Lane, seq<real>>)
    requires i < |milestones| && HoldsLanes(last, milestones[..i], gap)
    ensures
      var lane, p := milestones[i].lane, TimelinePosition(milestones[i].instant);
      && lane in last
      && last[lane] == LastPositions(LanePositions(milestones[..i], lane), gap)
      && HoldsLanes(last[lane := Put(last[lane], FirstFit(last[lane], p, gap), p)], milestones[..i + 1], gap)
  {
    LaneStep(milestones, gap, i, Above);
    LaneStep(milestones, gap, i, Below);
    assert milestones[i].lane == Above || milestones[i].lane == Below;
  }

  lemma {:induction false} NodeStep(milestones: seq<Milestone>, gap: real, i: nat)
    requires i < |milestones|
    ensures
      var before := LastPositions(Positions(milestones[..i]), gap);
      var p := TimelinePosition(milestones[i].instant);
      LastPositions(Positions(milestones[..i + 1]), gap) == Put(before, FirstFit(before, p, gap), p)
  {
    assert Positions(milestones[..i + 1])[..i] == Positions(milestones[..i]);
  }

  lemma {:induction false} LayoutStep(milestones: seq<Milestone>, width: real, i: nat)
    requires width > 0.0
    requires i < |milestones|
    ensures Layout(milestones[..i + 1], width)
         == Layout(milestones[..i], width)
           + [NextPlacement(milestones[..i], milestones[i], LabelGap(width), NodeGap(width))]
  {
    assert milestones[..i + 1][..i] == milestones[..i];
  }

  /** `distributeTimelineLabels`: one pass that keeps, per lane and for the nodes, the last
      position on every track. The interleaved lanes do not disturb each other. */
  method DistributeTimelineLabels(milestones: seq<Milestone>, width: real) returns (layout: seq<Placement>)
    requires width > 0.0
    ensures layout == Layout(milestones, width)
  {
    var lastPositions: map<Lane, seq<real>> := map[Above := [], Below := []];
    var lastNodePositions: seq<real> := [];
    var minimumGap := LabelGap(width);
    var minimumNodeGap := NodeGap(width);
    layout := [];
    for i := 0 to |milestones|
      invariant HoldsLanes(lastPositions, milestones[..i], minimumGap)
      invariant lastNodePositions == LastPositions(Positions(milestones[..i]), minimumNodeGap)
      invariant layout == Layout(milestones[..i], width)
    {
      LanesStep(milestones, minimumGap, i, lastPositions);
      NodeStep(milestones, minimumNodeGap, i);
      LayoutStep(milestones, width, i);
      var item := milestones[i];
      var position := TimelinePosition(item.instant);
      var tracks := lastPositions[item.lane];
      var timelineTrack := FirstFit(tracks, position, minimumGap);
      lastPositions := lastPositions[item.lane := Put(tracks, timelineTrack, position)];
      var nodeTrack := FirstFit(lastNodePositions, position, minimumNodeGap);
      lastNodePositions := Put(lastNodePositions, nodeTrack, position);
      layout := layout + [Placement(timelineTrack, NodeOffset(nodeTrack))];
    }
    assert milestones[..|milestones|] == milestones;
  }

  // ----- What the component reads off the layout ------------------------------------

  /** The largest `timelineTrack + 1` in a lane, as `tracksIn` takes it from the layout. */
  function LargestTrack(milestones: seq<Milestone>, layout: seq<Placement>, lane: Lane): int
    requires |milestones| == |layout|
  {
    if milestones == [] then 0
    else
      var n := |milestones| - 1;
      var rest := LargestTrack(milestones[..n], layout[..n], lane);
      if milestones[n].lane == lane then Max(rest, layout[n].labelTrack + 1) else rest
  }

  function TracksIn(milestones: seq<Milestone>, viewportWidth: real, zoom: real, lane: Lane): int
    requires zoom >= 1.0
  {
    if zoom < 4.0 then 1
    else Max(2, LargestTrack(milestones, Layout(milestones, CanvasWidth(viewportWidth, zoom)), lane))
  }

  function LargestOffset(layout: seq<Placement>): int {
    if layout == [] then 0
    else Max(LargestOffset(layout[..|layout| - 1]), AbsInt(layout[|layout| - 1].nodeOffset))
  }

  function NodeClearance(milestones: seq<Milestone>, width: real): int
    requires width > 0.0
  {
    LargestOffset(Layout(milestones, width))
  }

  lemma {:induction false} LayoutOfPrefix(milestones: seq<Milestone>, width: real, n: nat)
    requires width > 0.0
    requires n <= |milestones|
    ensures Layout(milestones[..n], width) == Layout(milestones, width)[..n]
  {
    var last := |milestones| - 1;
    if n <= last {
      LayoutOfPrefix(milestones[..last], width, n);
      assert milestones[..last][..n] == milestones[..n];
    } else {
      assert milestones[..n] == milestones;
    }
  }

  lemma {:induction false} PlacementAt(milestones: seq<Milestone>, width: real, i: nat)
    requires width > 0.0
    requires i < |milestones|
    ensures Layout(milestones, width)[i]
         == NextPlacement(milestones[..i], milestones[i], LabelGap(width), NodeGap(width))
  {
    LayoutOfPrefix(milestones, width, i + 1);
    LayoutStep(milestones, width, i);
    assert Layout(milestones, width)[i] == Layout(milestones, width)[..i + 1][i];
  }

  lemma {:induction false} OffsetAt(milestones: seq<Milestone>, width: real, i: nat)
    requires width > 0.0
    requires i < |milestones|
    ensures Layout(milestones, width)[i].nodeOffset == NodeOffset(Track(Positions(milestones), NodeGap(width), i))
  {
    PlacementAt(milestones, width, i);
    assert Positions(milestones[..i]) == Positions(milestones)[..i];
  }

  /** The highest track number shown in a lane is the number of tracks first fit opened there. */
  lemma {:induction false} LargestTrackIsTrackCount(milestones: seq<Milestone>, width: real, lane: Lane)
    requires width > 0.0
    ensures LargestTrack(milestones, Layout(milestones, width), lane)
         == TrackCount(LanePositions(milestones, lane), LabelGap(width))
  {
    if milestones != [] {
      var n := |milestones| - 1;
      LayoutOfPrefix(milestones, width, n);
      PlacementAt(milestones, width, n);
      LargestTrackIsTrackCount(milestones[..n], width, lane);
      var before := LanePositions(milestones[..n], lane);
      var all := LanePositions(milestones, lane);
      if milestones[n].lane == lane {
        assert all[..|all| - 1] == before;
        assert Layout(milestones, width)[n].labelTrack == Track(all, LabelGap(width), |all| - 1);
        TrackCountGrows(all, LabelGap(width));
      } else {
        assert all == before;
      }
    }
  }

  /** How far from the axis `tracks` node tracks reach, in pixels. */
  function Reach(tracks: nat): int { 48 * (tracks / 2) }

  lemma {:induction false} ReachGrows(a: nat, b: nat)
    requires a <= b
    ensures Reach(a) <= Reach(b)
  {
  }

  lemma {:induction false} ReachOfMax(a: nat, b: nat)
    ensures Max(Reach(a), Reach(b)) == Reach(Max(a, b))
  {
  }

  lemma {:induction false} OffsetOfTrack(track: nat)
    ensures AbsInt(NodeOffset(track)) == Reach(track + 1)
  {
  }

  lemma {:induction false} TrackCountGrows(ps: seq<real>, gap: real)
    requires ps != []
    ensures TrackCount(ps, gap) == Max(TrackCount(ps[..|ps| - 1], gap), Track(ps, gap, |ps| - 1) + 1)
  {
  }

  /** Every offset reaches as far as its item's track. */
  ghost predicate OnTracks(layout: seq<Placement>, ps: seq<real>, gap: real) {
    && |layout| == |ps|
    && forall i | 0 <= i < |ps| :: AbsInt(layout[i].nodeOffset) == Reach(Track(ps, gap, i) + 1)
  }

  lemma {:induction false} OnTracksBefore(layout: seq<Placement>, ps: seq<real>, gap: real)
    requires ps != [] && OnTracks(layout, ps, gap)
    ensures OnTracks(layout[..|ps| - 1], ps[..|ps| - 1], gap)
  {
    var n := |ps| - 1;
    forall i | 0 <= i < n
      ensures AbsInt(layout[..n][i].nodeOffset) == Reach(Track(ps[..n], gap, i) + 1)
    {
      TrackOfPrefix(ps, gap, n, i);
    }
  }

  lemma {:induction false} LastReaches(layout: seq<Placement>, before: nat, track: nat)
    requires layout != []
    requires LargestOffset(layout[..|layout| - 1]) == Reach(before)
    requires AbsInt(layout[|layout| - 1].nodeOffset) == Reach(track + 1)
    ensures LargestOffset(layout) == Reach(Max(before, track + 1))
  {
    ReachOfMax(before, track + 1);
  }

  lemma {:induction false} OffsetsReach(layout: seq<Placement>, ps: seq<real>, gap: real)
    requires OnTracks(layout, ps, gap)
    ensures LargestOffset(layout) == Reach(TrackCount(ps, gap))
  {
    if ps != [] {
      var n := |ps| - 1;
      OnTracksBefore(layout, ps, gap);
      OffsetsReach(layout[..n], ps[..n], gap);
      LastReaches(layout, TrackCount(ps[..n], gap), Track(ps, gap, n));
      TrackCountGrows(ps, gap);
    }
  }

  /** The clearance is exactly the reach of the tracks that are used. */
  lemma {:induction false} NodeClearanceIsReach(milestones: seq<Milestone>, width: real)
    requires width > 0.0
    ensures NodeClearance(milestones, width) == Reach(TrackCount(Positions(milestones), NodeGap(width)))
  {
    forall i | 0 <= i < |milestones|
      ensures AbsInt(Layout(milestones, width)[i].nodeOffset)
          == Reach(Track(Positions(milestones), NodeGap(width), i) + 1)
    {
      OffsetAt(milestones, width, i);
      OffsetOfTrack(Track(Positions(milestones), NodeGap(width), i));
    }
    OffsetsReach(Layout(milestones, width), Positions(milestones), NodeGap(width));
  }

  // ----- Labels on one track never overlap -----------------------------------------------

  function Pixels(position: real, width: real): real { position / 100.0 * width }

  lemma {:induction false} GapInPixels(pixels: real, p: real, q: real, width: real)
    requires width > 0.0
    requires q - p >= pixels / width * 100.0
    ensures Pixels(q, width) - Pixels(p, width) >= pixels
  {
  }

  /** Milestone `i` is its lane's item number `|LanePositions(milestones[..i], lane)|`. */
  lemma {:induction false} LaneIndex(milestones: seq<Milestone>, lane: Lane, i: nat)
    requires i < |milestones| && milestones[i].lane == lane
    ensures
      var k := |LanePositions(milestones[..i], lane)|;
      var all := LanePositions(milestones, lane);
      && k < |all|
      && all[k] == TimelinePosition(milestones[i].instant)
      && all[..k] == LanePositions(milestones[..i], lane)
  {
    var last := |milestones| - 1;
    if i < last {
      LaneIndex(milestones[..last], lane, i);
      assert milestones[..last][..i] == milestones[..i];
      assert LanePositions(milestones[..last], lane) <= LanePositions(milestones, lane);
    }
  }

  /** Two labels in one lane and on one track are a label's width, 188 pixels, apart. */
  lemma {:induction false} LabelsApart(milestones: seq<Milestone>, width: real, i: nat, j: nat)
    requires width > 0.0
    requires i < j < |milestones|
    requires milestones[i].lane == milestones[j].lane
    requires Layout(milestones, width)[i].labelTrack == Layout(milestones, width)[j].labelTrack
    ensures Pixels(TimelinePosition(milestones[j].instant), width)
          - Pixels(TimelinePosition(milestones[i].instant), width) >= 188.0
  {
    var lane := milestones[j].lane;
    var ps, gap := LanePositions(milestones, lane), LabelGap(width);
    var a, b := |LanePositions(milestones[..i], lane)|, |LanePositions(milestones[..j], lane)|;
    LaneIndex(milestones, lane, i);
    LaneIndex(milestones, lane, j);
    LaneIndex(milestones[..j], lane, i);
    assert milestones[..j][..i] == milestones[..i];
    PlacementAt(milestones, width, i);
    PlacementAt(milestones, width, j);
    Separation(ps, gap, a, b);
    GapInPixels(188.0, ps[a], ps[b], width);
  }

  // ----- Nodes never overlap ----------------------------------------------------------

  lemma {:induction false} OffsetsApart(a: nat, b: nat)
    requires a != b
    ensures AbsInt(NodeOffset(a) - NodeOffset(b)) >= 48
  {
    var x, y := (a + 1) / 2, (b + 1) / 2;
    assert a == 2 * x - a % 2 && b == 2 * y - b % 2;
  }

  /** In any order of dates, two nodes are 48 pixels apart along the axis or across it. */
  lemma {:induction false} NodesApart(milestones: seq<Milestone>, width: real, i: nat, j: nat)
    requires width > 0.0
    requires i < j < |milestones|
    ensures
      var layout := Layout(milestones, width);
      var ps := Positions(milestones);
      || Abs(Pixels(ps[i], width) - Pixels(ps[j], width)) >= 48.0
      || AbsInt(layout[i].nodeOffset - layout[j].nodeOffset) >= 48
  {
    var ps := Positions(milestones);
    var a, b := Track(ps, NodeGap(width), i), Track(ps, NodeGap(width), j);
    OffsetAt(milestones, width, i);
    OffsetAt(milestones, width, j);
    if a == b {
      Separation(ps, NodeGap(width), i, j);
      GapInPixels(48.0, ps[i], ps[j], width);
    } else {
      OffsetsApart(a, b);
    }
  }

  /** How far below the top the axis is drawn. */
  function AxisY(milestones: seq<Milestone>, viewportWidth: real, zoom: real): int
    requires zoom >= 1.0
  {
    84 + NodeClearance(milestones, CanvasWidth(viewportWidth, zoom))
    + TracksIn(milestones, viewportWidth, zoom, Above) * 80
  }

  /** The computed height leaves 84 pixels and every label track free of every node, above the
      axis and below it, and not a pixel more: the space is used up if a node is as far from
      the axis as any. */
  lemma {:induction false} NodesFitHeight(milestones: seq<Milestone>, viewportWidth: real, zoom: real, i: nat)
    requires zoom >= 1.0
    requires i < |milestones|
    ensures
      var width := CanvasWidth(viewportWidth, zoom);
      var offset := Layout(milestones, width)[i].nodeOffset;
      var top := 84 + TracksIn(milestones, viewportWidth, zoom, Above) * 80;
      var height := Height(milestones, viewportWidth, zoom);
      var bottom := height - 84 - TracksIn(milestones, viewportWidth, zoom, Below) * 80;
      && top <= AxisY(milestones, viewportWidth, zoom) + offset <= bottom
      && bottom - top == 2 * NodeClearance(milestones, width)
  {
    OffsetWithin(Layout(milestones, CanvasWidth(viewportWidth, zoom)), i);
  }

  /** Some node is as far from the axis as the clearance says. */
  lemma {:induction false} ClearanceIsReached(layout: seq<Placement>)
    requires layout != []
    ensures exists i :: 0 <= i < |layout| && AbsInt(layout[i].nodeOffset) == LargestOffset(layout)
    decreases |layout|
  {
    var n := |layout| - 1;
    if n == 0 {
      assert AbsInt(layout[0].nodeOffset) == LargestOffset(layout);
    } else {
      ClearanceIsReached(layout[..n]);
      var i :| 0 <= i < n && AbsInt(layout[..n][i].nodeOffset) == LargestOffset(layout[..n]);
      assert layout[i] == layout[..n][i];
      var largest := LargestOffset(layout);
      assert AbsInt(layout[n].nodeOffset) == largest || AbsInt(layout[i].nodeOffset) == largest;
    }
  }

  lemma {:induction false} OffsetWithin(layout: seq<Placement>, i: nat)
    requires i < |layout|
    ensures AbsInt(layout[i].nodeOffset) <= LargestOffset(layout)
  {
    if i < |layout| - 1 {
      OffsetWithin(layout[..|layout| - 1], i);
    }
  }

  // ----- Zooming in never adds tracks ---------------------------------------------------

  ghost predicate ByDate(milestones: seq<Milestone>) {
    forall i, j | 0 <= i < j < |milestones| :: milestones[i].instant <= milestones[j].instant
  }

  lemma {:induction false} LaterIsFurther(a: int, b: int)
    requires a <= b
    ensures TimelinePosition(a) <= TimelinePosition(b)
  {
  }

  lemma {:induction false} PositionsSorted(milestones: seq<Milestone>)
    requires ByDate(milestones)
    ensures Sorted(Positions(milestones))
  {
  }

  lemma {:induction false} LanePositionsSorted(milestones: seq<Milestone>, lane: Lane)
    requires ByDate(milestones)
    ensures Sorted(LanePositions(milestones, lane))
    ensures forall k | 0 <= k < |LanePositions(milestones, lane)| ::
              exists m | 0 <= m < |milestones| ::
                LanePositions(milestones, lane)[k] == TimelinePosition(milestones[m].instant)
  {
    if milestones != [] {
      var n := |milestones| - 1;
      LanePositionsSorted(milestones[..n], lane);
      var before := LanePositions(milestones[..n], lane);
      forall k | 0 <= k < |before|
        ensures before[k] <= TimelinePosition(milestones[n].instant)
        ensures exists m | 0 <= m < |milestones| :: before[k] == TimelinePosition(milestones[m].instant)
      {
        var m :| 0 <= m < n && before[k] == TimelinePosition(milestones[..n][m].instant);
        LaterIsFurther(milestones[m].instant, milestones[n].instant);
        assert before[k] == TimelinePosition(milestones[m].instant);
      }
    }
  }

  lemma {:induction false} QuotientShrinks(x: real, w1: real, w2: real)
    requires 0.0 < x && 0.0 < w1 <= w2
    ensures x / w2 <= x / w1
  {
  }

  lemma {:induction false} GapsShrink(w1: real, w2: real)
    requires 0.0 < w1 <= w2
    ensures LabelGap(w2) <= LabelGap(w1)
    ensures NodeGap(w2) <= NodeGap(w1)
  {
    QuotientShrinks(188.0, w1, w2);
    QuotientShrinks(48.0, w1, w2);
  }

  lemma {:induction false} LanesShrink(milestones: seq<Milestone>, w1: real, w2: real, lane: Lane)
    requires ByDate(milestones)
    requires 0.0 < w1 <= w2
    ensures TrackCount(LanePositions(milestones, lane), LabelGap(w2))
         <= TrackCount(LanePositions(milestones, lane), LabelGap(w1))
  {
    GapsShrink(w1, w2);
    LanePositionsSorted(milestones, lane);
    SmallerGapFewerTracks(LanePositions(milestones, lane), LabelGap(w1), LabelGap(w2));
  }

  lemma {:induction false} ClearanceShrinks(milestones: seq<Milestone>, w1: real, w2: real)
    requires ByDate(milestones)
    requires 0.0 < w1 <= w2
    ensures NodeClearance(milestones, w2) <= NodeClearance(milestones, w1)
  {
    GapsShrink(w1, w2);
    PositionsSorted(milestones);
    SmallerGapFewerTracks(Positions(milestones), NodeGap(w1), NodeGap(w2));
    NodeClearanceIsReach(milestones, w1);
    NodeClearanceIsReach(milestones, w2);
    ReachGrows(TrackCount(Positions(milestones), NodeGap(w2)), TrackCount(Positions(milestones), NodeGap(w1)));
  }

  /** On a wider canvas each lane, and the node axis, needs no more tracks. */
  lemma {:induction false} WiderNeedsNoMoreTracks(milestones: seq<Milestone>, w1: real, w2: real)
    requires ByDate(milestones)
    requires 0.0 < w1 <= w2
    ensures forall lane :: LargestTrack(milestones, Layout(milestones, w2), lane)
                        <= LargestTrack(milestones, Layout(milestones, w1), lane)
    ensures NodeClearance(milestones, w2) <= NodeClearance(milestones, w1)
  {
    forall lane: Lane
      ensures LargestTrack(milestones, Layout(milestones, w2), lane)
           <= LargestTrack(milestones, Layout(milestones, w1), lane)
    {
      LanesShrink(milestones, w1, w2, lane);
      LargestTrackIsTrackCount(milestones, w1, lane);
      LargestTrackIsTrackCount(milestones, w2, lane);
    }
    ClearanceShrinks(milestones, w1, w2);
  }

  /** The tracks reserved for a lane never grow in number when zooming in, except where the
      compact view (below zoom 4) ends: compact shows one track, the full view at least two. */
  lemma {:induction false} ZoomingInReservesNoMore(
    milestones: seq<Milestone>, viewportWidth: real, zoom1: real, zoom2: real, lane: Lane
  )
    requires ByDate(milestones)
    requires 1.0 <= zoom1 <= zoom2
    ensures TracksIn(milestones, viewportWidth, zoom2, lane) <= TracksIn(milestones, viewportWidth, zoom1, lane)
       <==> !(zoom1 < 4.0 <= zoom2)
  {
    CanvasWidens(viewportWidth, zoom1, zoom2);
    WiderNeedsNoMoreTracks(milestones, CanvasWidth(viewportWidth, zoom1), CanvasWidth(viewportWidth, zoom2));
  }

  lemma {:induction false} CanvasWidens(viewportWidth: real, zoom1: real, zoom2: real)
    requires 1.0 <= zoom1 <= zoom2
    ensures CanvasWidth(viewportWidth, zoom1) <= CanvasWidth(viewportWidth, zoom2)
  {
  }

  /** The height of the drawing: margins, the clearance on both sides, and the tracks. */
  function Height(milestones: seq<Milestone>, viewportWidth: real, zoom: real): int
    requires zoom >= 1.0
  {
    168 + 2 * NodeClearance(milestones, CanvasWidth(viewportWidth, zoom))
    + (TracksIn(milestones, viewportWidth, zoom, Above) + TracksIn(milestones, viewportWidth, zoom, Below)) * 80
  }

  /** On either side of zoom 4, zooming in never makes the drawing taller. */
  lemma {:induction false} ZoomingInGetsNoTaller(
    milestones: seq<Milestone>, viewportWidth: real, zoom1: real, zoom2: real
  )
    requires ByDate(milestones)
    requires 1.0 <= zoom1 <= zoom2 && !(zoom1 < 4.0 <= zoom2)
    ensures Height(milestones, viewportWidth, zoom2) <= Height(milestones, viewportWidth, zoom1)
  {
    ZoomingInReservesNoMore(milestones, viewportWidth, zoom1, zoom2, Above);
    ZoomingInReservesNoMore(milestones, viewportWidth, zoom1, zoom2, Below);
    CanvasWidens(viewportWidth, zoom1, zoom2);
    ClearanceShrinks(milestones, CanvasWidth(viewportWidth, zoom1), CanvasWidth(viewportWidth, zoom2));
  }

  /** Across zoom 4 it can: one milestone takes one track a lane at zoom 1 and two at zoom 4. */
  lemma {:induction false} FullViewIsTaller(m: Milestone, lane: Lane)
    ensures TracksIn([m], 1000.0, 1.0, lane) == 1 && TracksIn([m], 1000.0, 4.0, lane) == 2
    ensures Height([m], 1000.0, 1.0) < Height([m], 1000.0, 4.0)
  {
    OneMilestone(m, CanvasWidth(1000.0, 1.0));
    OneMilestone(m, CanvasWidth(1000.0, 4.0));
  }

  lemma {:induction false} OneMilestone(m: Milestone, width: real)
    requires width > 0.0
    ensures forall lane :: LargestTrack([m], Layout([m], width), lane) <= 1
    ensures NodeClearance([m], width) == 0
  {
    assert [m][..0] == [];
    assert Layout([m], width) == [Placement(0, 0)];
    assert [Placement(0, 0)][..0] == [];
  }

  lemma {:induction false} Rescale(a: real, b: real, factor: real)
    requires factor > 0.0
    ensures a >= b <==> a * factor >= b * factor
  {
  }

  lemma {:induction false} InPixels(pixels: real, p: real, q: real, width: real)
    requires width > 0.0
    ensures pixels / width * 100.0 * width == pixels * 100.0
    ensures (Pixels(q, width) - Pixels(p, width)) * 100.0 == (q - p) * width
  {
  }

  /** A gap in percent is kept exactly when as many pixels are. */
  lemma {:induction false} GapIsPixels(pixels: real, p: real, q: real, width: real)
    requires width > 0.0
    ensures q - p >= pixels / width * 100.0 <==> Pixels(q, width) - Pixels(p, width) >= pixels
  {
    InPixels(pixels, p, q, width);
    Rescale(q - p, pixels / width * 100.0, width);
  }

  /** In the assignment, items of one track are `pixels` apart or more. */
  ghost predicate ApartInPixels(ps: seq<real>, assignment: seq<nat>, pixels: real, width: real) {
    && |assignment| == |ps|
    && forall i, j | 0 <= i < j < |ps| ::
         assignment[i] == assignment[j] ==> Abs(Pixels(ps[i], width) - Pixels(ps[j], width)) >= pixels
  }

  lemma {:induction false} ApartIsLegal(ps: seq<real>, assignment: seq<nat>, pixels: real, width: real)
    requires width > 0.0
    ensures ApartInPixels(ps, assignment, pixels, width) <==> Legal(ps, assignment, pixels / width * 100.0)
  {
    if |assignment| == |ps| {
      forall i, j | 0 <= i < j < |ps|
        ensures Abs(Pixels(ps[i], width) - Pixels(ps[j], width)) >= pixels
           <==> Abs(ps[i] - ps[j]) >= pixels / width * 100.0
      {
        GapIsPixels(pixels, ps[i], ps[j], width);
        GapIsPixels(pixels, ps[j], ps[i], width);
      }
    }
  }

  /** A lane's labels are hung on as few tracks as any rule needs that keeps the labels of one
      track 188 pixels apart. */
  lemma {:induction false} LanesAreMinimal(milestones: seq<Milestone>, width: real, lane: Lane, rival: seq<nat>)
    requires ByDate(milestones)
    requires width > 0.0
    requires ApartInPixels(LanePositions(milestones, lane), rival, 188.0, width)
    ensures LargestTrack(milestones, Layout(milestones, width), lane) <= |TracksUsed(rival)|
  {
    ApartIsLegal(LanePositions(milestones, lane), rival, 188.0, width);
    LanePositionsSorted(milestones, lane);
    FirstFitIsMinimal(LanePositions(milestones, lane), LabelGap(width), rival);
    LargestTrackIsTrackCount(milestones, width, lane);
  }

  /** And the nodes reach no further from the axis than any rule's tracks would that keeps the
      nodes of one track 48 pixels apart. */
  lemma {:induction false} NodesAreMinimal(milestones: seq<Milestone>, width: real, rival: seq<nat>)
    requires ByDate(milestones)
    requires width > 0.0
    requires ApartInPixels(Positions(milestones), rival, 48.0, width)
    ensures NodeClearance(milestones, width) <= 48 * (|TracksUsed(rival)| / 2)
  {
    ApartIsLegal(Positions(milestones), rival, 48.0, width);
    PositionsSorted(milestones);
    FirstFitIsMinimal(Positions(milestones), NodeGap(width), rival);
    NodeClearanceIsReach(milestones, width);
    ReachGrows(TrackCount(Positions(milestones), NodeGap(width)), |TracksUsed(rival)|);
  }

  /** The scale of the axis: 2 percent on the day 20454 days after the epoch, 1 January 2026,
      98 percent 303 days later, and evenly in between. */
  lemma {:induction false} AxisIsLinear(days: int)
    ensures TimelinePosition((20454 + days) * 86400000) == 2.0 + 96.0 * days as real / 303.0
  {
    assert ((20454 + days) * 86400000 - TIMELINE_START) as real == days as real * 86400000.0;
  }

  /** The nodes' tracks alternate: the odd ones go up from the axis and the even ones down, 48
      pixels a step. */
  lemma {:induction false} OffsetsAlternate(track: nat)
    ensures NodeOffset(0) == 0 && NodeOffset(1) == -48 && NodeOffset(2) == 48
    ensures NodeOffset(track + 2) - NodeOffset(track) == if track == 0 then 48 else if track % 2 == 1 then -48 else 48
  {
  }

  /** The canvas is as wide as the viewport, or one pixel, times the zoom. */
  lemma {:induction false} CanvasIsZoomedViewport(viewportWidth: real, zoom: real)
    requires zoom >= 1.0
    ensures CanvasWidth(viewportWidth, zoom) == Larger(viewportWidth, 1.0) * zoom
  {
  }

  ghost function Larger(a: real, b: real): (c: real)
    ensures c >= a && c >= b && c in {a, b}
  {
    if a >= b then a else b
  }
}
