/** First fit: items on one axis, each put on the first track that has room for it.
    `distributeTimelineLabels` runs it once per label lane and once for all nodes. */
module TrackAllocation {
  import opened Basics

  function Abs(x: real): real { if x < 0.0 then -x else x }

  /** The first track whose last item is at least `gap` behind `position`, or a new one. */
  function FirstFit(lasts: seq<real>, position: real, gap: real): (k: nat)
    ensures k <= |lasts|
    ensures forall j | 0 <= j < k :: position - lasts[j] < gap
    ensures k < |lasts| ==> position - lasts[k] >= gap
  {
    FirstFitFrom(lasts, position, gap, 0)
  }

  function FirstFitFrom(lasts: seq<real>, position: real, gap: real, from: nat): (k: nat)
    requires from <= |lasts|
    ensures from <= k <= |lasts|
    ensures forall j | from <= j < k :: position - lasts[j] < gap
    ensures k < |lasts| ==> position - lasts[k] >= gap
    decreases |lasts| - from
  {
    if from == |lasts| || position - lasts[from] >= gap then from
    else FirstFitFrom(lasts, position, gap, from + 1)
  }

  function Put(lasts: seq<real>, k: nat, position: real): seq<real>
    requires k <= |lasts|
  {
    if k == |lasts| then lasts + [position] else lasts[k := position]
  }

  /** The last position on every open track after placing `ps` from left to right. */
  function LastPositions(ps: seq<real>, gap: real): seq<real> {
    if ps == [] then []
    else
      var before := LastPositions(ps[..|ps| - 1], gap);
      Put(before, FirstFit(before, ps[|ps| - 1], gap), ps[|ps| - 1])
  }

  /** The track given to item `i`. */
  function Track(ps: seq<real>, gap: real, i: nat): nat
    requires i < |ps|
  {
    FirstFit(LastPositions(ps[..i], gap), ps[i], gap)
  }

  function TrackCount(ps: seq<real>, gap: real): nat { |LastPositions(ps, gap)| }

  ghost predicate Sorted(ps: seq<real>) {
    forall i, j | 0 <= i < j < |ps| :: ps[i] <= ps[j]
  }

  /** Any assignment at all, made by any rule, in which items sharing a track are `gap` apart. */
  ghost predicate Legal(ps: seq<real>, assignment: seq<nat>, gap: real) {
    && |assignment| == |ps|
    && forall i, j | 0 <= i < j < |ps| :: assignment[i] == assignment[j] ==> Abs(ps[i] - ps[j]) >= gap
  }

  ghost function TracksUsed(assignment: seq<nat>): set<nat> {
    set t | t in assignment
  }

  ghost predicate Close(ps: seq<real>, i: nat, j: nat, gap: real) {
    i < |ps| && j < |ps| && Abs(ps[i] - ps[j]) < gap
  }

  /** A choice of different items, every two of them closer than `gap`. */
  ghost predicate Crowd(ps: seq<real>, items: seq<nat>, gap: real) {
    && Distinct(items)
    && (forall a | 0 <= a < |items| :: items[a] < |ps|)
    && forall a, b | 0 <= a < b < |items| :: Close(ps, items[a], items[b], gap)
  }

  /** The track numbers 0 .. k-1. */
  ghost function Below(k: nat): (s: set<nat>)
    ensures forall t: nat :: t in s <==> t < k
    ensures |s| == k
  {
    if k == 0 then {} else Below(k - 1) + {k - 1}
  }

  lemma {:induction false} TrackOfPrefix(ps: seq<real>, gap: real, n: nat, i: nat)
    requires i < n <= |ps|
    ensures Track(ps[..n], gap, i) == Track(ps, gap, i)
  {
    assert ps[..n][..i] == ps[..i];
  }

  /** The item that is currently last on each track. */
  ghost function Heads(ps: seq<real>, gap: real): (heads: seq<nat>)
    ensures |heads| == TrackCount(ps, gap)
    ensures forall t | 0 <= t < |heads| :: heads[t] < |ps| && ps[heads[t]] == LastPositions(ps, gap)[t]
  {
    if ps == [] then []
    else
      var n := |ps| - 1;
      var before := Heads(ps[..n], gap);
      var k := Track(ps, gap, n);
      if k == |before| then before + [n] else before[k := n]
  }

  /** A head sits on its track ... */
  lemma {:induction false} HeadIsOnTrack(ps: seq<real>, gap: real, t: nat)
    requires t < TrackCount(ps, gap)
    ensures Track(ps, gap, Heads(ps, gap)[t]) == t
  {
    var n := |ps| - 1;
    if Track(ps, gap, n) != t {
      HeadIsOnTrack(ps[..n], gap, t);
      TrackOfPrefix(ps, gap, n, Heads(ps[..n], gap)[t]);
    }
  }

  /** ... and no later item does. */
  lemma {:induction false} HeadIsLast(ps: seq<real>, gap: real, i: nat)
    requires i < |ps|
    ensures Track(ps, gap, i) < TrackCount(ps, gap)
    ensures i <= Heads(ps, gap)[Track(ps, gap, i)]
  {
    var n := |ps| - 1;
    if i < n {
      HeadIsLast(ps[..n], gap, i);
      TrackOfPrefix(ps, gap, n, i);
    }
  }

  /** Items on one track stay `gap` apart, whatever order the items arrive in. */
  lemma {:induction false} Separation(ps: seq<real>, gap: real, i: nat, j: nat)
    requires gap > 0.0
    requires i < j < |ps|
    requires Track(ps, gap, i) == Track(ps, gap, j)
    ensures ps[j] - ps[i] >= gap
    decreases j
  {
    var t := Track(ps, gap, j);
    var heads := Heads(ps[..j], gap);
    TrackOfPrefix(ps, gap, j, i);
    HeadIsLast(ps[..j], gap, i);
    if heads[t] > i {
      HeadIsOnTrack(ps[..j], gap, t);
      TrackOfPrefix(ps, gap, j, heads[t]);
      Separation(ps, gap, i, heads[t]);
    }
  }

  /** Each item takes the lowest track with room: on every lower track the item put there most
      recently is less than `gap` behind. */
  lemma {:induction false} TrackIsLowest(ps: seq<real>, gap: real, i: nat, t: nat)
    requires i < |ps| && t < Track(ps, gap, i)
    ensures exists j: nat | j < i ::
              && Track(ps, gap, j) == t
              && ps[i] - ps[j] < gap
              && forall m | j < m < i :: Track(ps, gap, m) != t
  {
    var j := Heads(ps[..i], gap)[t];
    HeadIsOnTrack(ps[..i], gap, t);
    TrackOfPrefix(ps, gap, i, j);
    forall m | j < m < i
      ensures Track(ps, gap, m) != t
    {
      HeadIsLast(ps[..i], gap, m);
      TrackOfPrefix(ps, gap, i, m);
    }
  }

  ghost function Assignment(ps: seq<real>, gap: real): (a: seq<nat>)
    ensures |a| == |ps|
    ensures forall i | 0 <= i < |ps| :: a[i] == Track(ps, gap, i)
  {
    seq(|ps|, i requires 0 <= i < |ps| => Track(ps, gap, i))
  }

  /** First fit is itself legal, and the tracks it uses are exactly 0 .. k-1. */
  lemma {:induction false} FirstFitIsLegal(ps: seq<real>, gap: real)
    requires gap > 0.0
    ensures Legal(ps, Assignment(ps, gap), gap)
    ensures TracksUsed(Assignment(ps, gap)) == Below(TrackCount(ps, gap))
  {
    var a := Assignment(ps, gap);
    forall i, j | 0 <= i < j < |ps| && a[i] == a[j]
      ensures Abs(ps[i] - ps[j]) >= gap
    {
      Separation(ps, gap, i, j);
    }
    var heads := Heads(ps, gap);
    forall i | 0 <= i < |ps|
      ensures a[i] < TrackCount(ps, gap)
    {
      HeadIsLast(ps, gap, i);
    }
    forall t: nat | t < TrackCount(ps, gap)
      ensures t in TracksUsed(a)
    {
      HeadIsOnTrack(ps, gap, t);
      assert a[heads[t]] == t;
    }
  }

  lemma {:induction false} DistinctCount<T>(s: seq<T>)
    requires Distinct(s)
    ensures |set x | x in s| == |s|
  {
    if s != [] {
      var n := |s| - 1;
      DistinctCount(s[..n]);
      assert (set x | x in s) == (set x | x in s[..n]) + {s[n]};
      assert s[n] !in s[..n];
    }
  }

  /** Pigeonhole: no legal assignment gives a crowd fewer tracks than it has members. */
  lemma {:induction false} CrowdNeedsTracks(ps: seq<real>, gap: real, crowd: seq<nat>, rival: seq<nat>)
    requires Crowd(ps, crowd, gap)
    requires Legal(ps, rival, gap)
    ensures |crowd| <= |TracksUsed(rival)|
  {
    var used := seq(|crowd|, a requires 0 <= a < |crowd| => rival[crowd[a]]);
    forall a, b | 0 <= a < b < |used|
      ensures used[a] != used[b]
    {
      assert Close(ps, crowd[a], crowd[b], gap);
      if crowd[a] < crowd[b] {
        assert rival[crowd[a]] != rival[crowd[b]];
      } else {
        assert rival[crowd[b]] != rival[crowd[a]];
      }
    }
    DistinctCount(used);
    var subset := set t | t in used;
    forall t | t in used
      ensures t in rival
    {
      var a :| 0 <= a < |used| && used[a] == t;
      assert rival[crowd[a]] == t;
    }
    SubsetIsSmaller(subset, TracksUsed(rival));
  }

  /** Whenever the items come in order, the tracks that are open are explained by a crowd. */
  lemma {:induction false} OpenTracksAreCrowded(ps: seq<real>, gap: real) returns (crowd: seq<nat>)
    requires gap > 0.0
    requires Sorted(ps)
    ensures Crowd(ps, crowd, gap)
    ensures |crowd| == TrackCount(ps, gap)
  {
    if ps == [] {
      return [];
    }
    var n := |ps| - 1;
    if Track(ps, gap, n) < TrackCount(ps[..n], gap) {
      crowd := OpenTracksAreCrowded(ps[..n], gap);
      CrowdOfPrefix(ps, gap, n, crowd);
    } else {
      var heads := Heads(ps[..n], gap);
      forall t | 0 <= t < |heads|
        ensures heads[t] < n && Track(ps[..n], gap, heads[t]) == t && 0.0 <= ps[n] - ps[heads[t]] < gap
      {
        NewTrackIsCrowded(ps, gap, t);
      }
      CrowdGrows(ps, gap, heads);
      crowd := heads + [n];
    }
  }

  lemma {:induction false} CrowdOfPrefix(ps: seq<real>, gap: real, n: nat, crowd: seq<nat>)
    requires n <= |ps|
    requires Crowd(ps[..n], crowd, gap)
    ensures Crowd(ps, crowd, gap)
  {
  }

  /** Items just behind the last one form a crowd with it. */
  lemma {:induction false} CrowdGrows(ps: seq<real>, gap: real, items: seq<nat>)
    requires ps != [] && gap > 0.0
    requires Distinct(items)
    requires forall a | 0 <= a < |items| :: items[a] < |ps| - 1 && 0.0 <= ps[|ps| - 1] - ps[items[a]] < gap
    ensures Crowd(ps, items + [|ps| - 1], gap)
  {
  }

  /** When the last item opens a track, every head is less than `gap` behind it. */
  lemma {:induction false} NewTrackIsCrowded(ps: seq<real>, gap: real, t: nat)
    requires Sorted(ps) && ps != []
    requires Track(ps, gap, |ps| - 1) == TrackCount(ps[..|ps| - 1], gap)
    requires t < TrackCount(ps[..|ps| - 1], gap)
    ensures
      var head := Heads(ps[..|ps| - 1], gap)[t];
      && head < |ps| - 1
      && Track(ps[..|ps| - 1], gap, head) == t
      && 0.0 <= ps[|ps| - 1] - ps[head] < gap
  {
    var n := |ps| - 1;
    var lasts := LastPositions(ps[..n], gap);
    HeadIsOnTrack(ps[..n], gap, t);
    var head := Heads(ps[..n], gap)[t];
    assert ps[head] == lasts[t];
    assert ps[head] <= ps[n];
  }

  /** The number of tracks first fit opens on ordered items is the size of the largest crowd ... */
  lemma {:induction false} TrackCountIsLargestCrowd(ps: seq<real>, gap: real)
    requires gap > 0.0
    requires Sorted(ps)
    ensures exists crowd :: Crowd(ps, crowd, gap) && |crowd| == TrackCount(ps, gap)
    ensures forall crowd | Crowd(ps, crowd, gap) :: |crowd| <= TrackCount(ps, gap)
  {
    var _ := OpenTracksAreCrowded(ps, gap);
    forall crowd | Crowd(ps, crowd, gap)
      ensures |crowd| <= TrackCount(ps, gap)
    {
      CrowdFits(ps, gap, crowd);
    }
  }

  lemma {:induction false} CrowdFits(ps: seq<real>, gap: real, crowd: seq<nat>)
    requires gap > 0.0
    requires Crowd(ps, crowd, gap)
    ensures |crowd| <= TrackCount(ps, gap)
  {
    FirstFitIsLegal(ps, gap);
    CrowdNeedsTracks(ps, gap, crowd, Assignment(ps, gap));
  }

  /** ... and therefore no assignment of any kind does better. */
  lemma {:induction false} FirstFitIsMinimal(ps: seq<real>, gap: real, rival: seq<nat>)
    requires gap > 0.0
    requires Sorted(ps)
    requires Legal(ps, rival, gap)
    ensures TrackCount(ps, gap) <= |TracksUsed(rival)|
  {
    var crowd := OpenTracksAreCrowded(ps, gap);
    CrowdNeedsTracks(ps, gap, crowd, rival);
  }

  /** Order matters: out of order, first fit may open a track a rival does not need. */
  lemma {:induction false} OrderIsNeeded()
    ensures TrackCount([20.0, 0.0], 10.0) == 2
    ensures Legal([20.0, 0.0], [0, 0], 10.0) && |TracksUsed([0, 0])| == 1
  {
    var ps := [20.0, 0.0];
    assert ps[..1] == [20.0];
    assert [20.0][..0] == [];
    assert LastPositions([20.0], 10.0) == [20.0];
    assert TracksUsed([0, 0]) == {0};
  }

  /** A smaller gap never needs more tracks. */
  lemma {:induction false} SmallerGapFewerTracks(ps: seq<real>, wide: real, narrow: real)
    requires wide >= narrow > 0.0
    requires Sorted(ps)
    ensures TrackCount(ps, narrow) <= TrackCount(ps, wide)
  {
    var crowd := OpenTracksAreCrowded(ps, narrow);
    CrowdFits(ps, wide, crowd);
  }
}
