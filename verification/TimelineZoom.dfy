/** Zooming the history timeline with the wheel and the controls, over exact reals. */
module TimelineZoom {
  import opened Basics
  import opened TimelineLayout

  function Clamp(x: real, low: real, high: real): real {
    if x < low then low else if high < x then high else x
  }

  /** `Math.round`. */
  function Round(x: real): int { (x + 0.5).Floor }

  /** `Math.ceil`. */
  function Ceil(x: real): int { -((-x).Floor) }

  function Magnitude(x: real): real { if x < 0.0 then -x else x }

  predicate WholeStep(zoom: real) { zoom.Floor as real == zoom }

  predicate Quarter(zoom: real) { (zoom * 4.0).Floor as real == zoom * 4.0 }

  /** The zoom the wheel aims at, rounded to quarter steps. */
  function Rounded(target: real): real { Round(target * 4.0) as real / 4.0 }

  /** The scroll offset that puts the fraction `position` of the canvas under `pointer`. */
  function Anchored(position: real, canvas: real, pointer: real): real { position * canvas - pointer }

  /** Turns less than 180 ms apart accumulate on the unrounded aim of the one before. */
  function WheelBase(zoom: real, previous: real, sincePrevious: real): real {
    if sincePrevious < 180.0 then previous else zoom
  }

  function Aim(base: real, factor: real): real { Clamp(base * factor, 1.0, 32.0) }

  lemma {:induction false} Scales(x: real, factor: real)
    requires 0.0 < x && 0.0 < factor
    ensures 0.0 < x * factor
    ensures if 1.0 <= factor then x <= x * factor else x * factor <= x
  {
  }

  lemma {:induction false} Reassociate(x: real, y: real, z: real)
    ensures x * (y * z) == (x * y) * z
  {
  }

  lemma {:induction false} ClampedTooHigh(once: real, second: real)
    requires 1.0 <= once && 1.0 <= second
    ensures Aim(Clamp(once, 1.0, 32.0), second) == Aim(once, second)
  {
  }

  lemma {:induction false} ClampedTooLow(once: real, second: real)
    requires 0.0 < once <= 32.0 && 0.0 < second <= 1.0
    ensures Aim(Clamp(once, 1.0, 32.0), second) == Aim(once, second)
  {
  }

  /** The aim is the zoom from 1 to 32 closest to the product. */
  lemma {:induction false} AimIsClosest(base: real, factor: real, other: real)
    requires 1.0 <= other <= 32.0
    ensures 1.0 <= Aim(base, factor) <= 32.0
    ensures Magnitude(Aim(base, factor) - base * factor) <= Magnitude(other - base * factor)
  {
    ClosestInRange(base * factor, other);
  }

  lemma {:induction false} ClosestInRange(wanted: real, other: real)
    requires 1.0 <= other <= 32.0
    ensures 1.0 <= Clamp(wanted, 1.0, 32.0) <= 32.0
    ensures Magnitude(Clamp(wanted, 1.0, 32.0) - wanted) <= Magnitude(other - wanted)
  {
  }

  /** Because the unrounded aim is what accumulates, two quick turns the same way land
      exactly where one turn of their sum does, ends included. */
  lemma {:induction false} QuickTurnsAddUp(base: real, first: real, second: real)
    requires 1.0 <= base <= 32.0 && 0.0 < first && 0.0 < second
    requires 1.0 <= first <==> 1.0 <= second
    ensures Aim(Aim(base, first), second) == Aim(base, first * second)
  {
    var once := base * first;
    Reassociate(base, first, second);
    if 1.0 <= first {
      Scales(base, first);
      ClampedTooHigh(once, second);
    } else {
      Scales(base, first);
      ClampedTooLow(once, second);
    }
  }

  /** Turns in opposite directions do not: the aim forgets what went past an end. */
  lemma {:induction false} OppositeTurnsForget()
    ensures Aim(Aim(16.0, 4.0), 0.25) == 8.0 && Aim(16.0, 4.0 * 0.25) == 16.0
  {
  }

  lemma {:induction false} RoundedStays(target: real)
    requires 1.0 <= target <= 32.0
    ensures 1.0 <= Rounded(target) <= 32.0
    ensures Quarter(Rounded(target))
    ensures Rounded(target) - 0.125 <= target < Rounded(target) + 0.125
  {
  }

  /** The stored centre, put through the layout effect, is the anchored offset. */
  lemma {:induction false} CentreAnchors(position: real, canvas: real, client: real, pointer: real)
    requires canvas > 0.0
    ensures Anchored(position + (client / 2.0 - pointer) / canvas, canvas, client / 2.0)
        == Anchored(position, canvas, pointer)
  {
  }

  lemma {:induction false} Fraction(part: real, whole: real)
    requires 0.0 <= part <= whole && 0.0 < whole
    ensures 0.0 <= part / whole <= 1.0
    ensures part / whole * whole == part
  {
  }

  lemma {:induction false} PartOf(fraction: real, length: real)
    requires 0.0 <= fraction <= 1.0 && 0.0 <= length
    ensures 0.0 <= fraction * length <= length
  {
  }

  lemma {:induction false} PartOfMore(fraction: real, length: real, longer: real)
    ensures fraction * longer == fraction * length + fraction * (longer - length)
  {
  }

  /** Zooming in, the anchored offset is a legal scroll position. */
  lemma {:induction false} ZoomInNeedsNoClamp(scroll: real, pointer: real, client: real, canvas: real, wider: real)
    requires 0.0 <= pointer <= client && 0.0 < client
    requires 0.0 <= scroll <= canvas - client
    requires canvas <= wider
    ensures 0.0 <= Anchored((scroll + pointer) / canvas, wider, pointer) <= wider - client
  {
    var position := (scroll + pointer) / canvas;
    Fraction(scroll + pointer, canvas);
    PartOf(position, wider - canvas);
    PartOfMore(position, canvas, wider);
  }

  /** The offset after clamping anchors the pointer exactly when nothing was clamped. */
  lemma {:induction false} AnchoredIffUnclamped(position: real, canvas: real, client: real, pointer: real)
    requires 0.0 < client <= canvas
    ensures
      var raw := Anchored(position, canvas, pointer);
      (Clamp(raw, 0.0, canvas - client) + pointer) / canvas == position <==> 0.0 <= raw <= canvas - client
  {
  }

  /** A scroll offset the browser allows when the canvas sticks out by `limit`. */
  predicate Legal(offset: real, limit: real) { 0.0 <= offset <= limit }

  /** `offset` is the legal offset closest to the one wanted. */
  ghost predicate Nearest(offset: real, wanted: real, limit: real) {
    && Legal(offset, limit)
    && forall x | Legal(x, limit) :: Magnitude(offset - wanted) <= Magnitude(x - wanted)
  }

  lemma {:induction false} ClampIsNearest(wanted: real, limit: real)
    requires 0.0 <= limit
    ensures Nearest(Clamp(wanted, 0.0, limit), wanted, limit)
  {
  }

  /** There is only one nearest legal offset. */
  lemma {:induction false} NearestIsUnique(a: real, b: real, wanted: real, limit: real)
    requires Nearest(a, wanted, limit) && Nearest(b, wanted, limit)
    ensures a == b
  {
    var middle := (a + b) / 2.0;
    assert Legal(a, limit) && Legal(b, limit) && Legal(middle, limit);
  }

  /** What the layout effect does for the stored centre: the viewport ends at the one legal
      offset nearest to the offset that centres it, and so the centre is in the middle of the
      viewport exactly when that offset is legal. */
  lemma {:induction false} SettledIsNearest(centre: real, canvas: real, client: real)
    requires 0.0 < client <= canvas
    ensures
      var wanted := centre * canvas - client / 2.0;
      var settled := Settled(centre, canvas, client);
      && Nearest(settled, wanted, canvas - client)
      && ((settled + client / 2.0) / canvas == centre <==> Legal(wanted, canvas - client))
  {
    ClampIsNearest(centre * canvas - client / 2.0, canvas - client);
    AnchoredIffUnclamped(centre, canvas, client, client / 2.0);
  }

  class Timeline {
    var clientWidth: real
    var viewportWidth: real
    var zoom: real
    var centre: real
    var wheelZoom: real
    var wheelTime: real
    var scrollLeft: real

    /** The observer has reported the width, which is at least a pixel; the browser keeps
        the scroll offset inside the canvas. */
    ghost predicate Valid()
      reads this
    {
      && viewportWidth == clientWidth >= 1.0
      && 1.0 <= zoom <= 32.0
      && 1.0 <= wheelZoom <= 32.0
      && 0.0 <= scrollLeft <= Canvas() - clientWidth
    }

    function Canvas(): real
      requires zoom >= 1.0
      reads this
    {
      CanvasWidth(viewportWidth, zoom)
    }

    /** The fraction of the timeline under a point of the viewport. */
    function Under(pointer: real): real
      requires zoom >= 1.0
      reads this
    {
      (scrollLeft + pointer) / Canvas()
    }

    constructor (width: real)
      requires width >= 1.0
      ensures Valid() && zoom == 1.0 && centre == 0.5
    {
      clientWidth, viewportWidth := width, width;
      zoom, centre := 1.0, 0.5;
      wheelZoom, wheelTime := 1.0, 0.0;
      scrollLeft := 0.0;
    }

    /** The layout effect: the browser takes the offset it is given as far as it is legal.
        `SettledIsNearest` says what that means for the centre. */
    method ApplyCentre()
      requires viewportWidth == clientWidth >= 1.0 && zoom >= 1.0
      modifies this`scrollLeft
      ensures scrollLeft == Settled(centre, Canvas(), clientWidth)
    {
      CanvasCovers(clientWidth, zoom);
      scrollLeft := Clamp(centre * Canvas() - clientWidth / 2.0, 0.0, Canvas() - clientWidth);
    }

    /** The end of the wheel handler, with the layout effect that follows the new zoom. */
    method ZoomAbout(nextZoom: real, pointer: real)
      requires Valid() && 1.0 <= nextZoom <= 32.0 && 0.0 <= pointer <= clientWidth
      modifies `zoom, `centre, `scrollLeft
      ensures Valid() && zoom == nextZoom
      ensures
        var raw := Anchored(old(Under(pointer)), Canvas(), pointer);
        && Anchored(centre, Canvas(), clientWidth / 2.0) == raw
        && scrollLeft == Settled(centre, Canvas(), clientWidth)
        && (Under(pointer) == old(Under(pointer)) <==> 0.0 <= raw <= Canvas() - clientWidth)
        && (zoom >= old(zoom) ==> Under(pointer) == old(Under(pointer)))
    {
      CanvasGrows(clientWidth, zoom, nextZoom);
      var position := (scrollLeft + pointer) / Canvas();
      var nextWidth := clientWidth * nextZoom;
      assert nextWidth == CanvasWidth(clientWidth, nextZoom);
      centre := position + (clientWidth / 2.0 - pointer) / nextWidth;
      Anchors(clientWidth, Canvas(), CanvasWidth(clientWidth, nextZoom), scrollLeft, pointer);
      zoom := nextZoom;
      ApplyCentre();
    }

    /** The wheel turns. `factor` stands for the exponential of the scaled delta. */
    method OnWheel(deltaX: real, deltaY: real, factor: real, timeStamp: real, pointerX: real)
      requires Valid() && factor > 0.0
      modifies this
      ensures Valid() && clientWidth == old(clientWidth)
      ensures zoom == old(zoom) ==> scrollLeft == old(scrollLeft) && centre == old(centre)
      ensures zoom != old(zoom) ==>
                var pointer := Clamp(pointerX, 0.0, clientWidth);
                var raw := Anchored(old(Under(pointer)), Canvas(), pointer);
                && Anchored(centre, Canvas(), clientWidth / 2.0) == raw
                && scrollLeft == Settled(centre, Canvas(), clientWidth)
                && (Under(pointer) == old(Under(pointer)) <==> 0.0 <= raw <= Canvas() - clientWidth)
                && (zoom > old(zoom) ==> Under(pointer) == old(Under(pointer)))
      ensures
        var sideways := if deltaX < 0.0 then -deltaX else deltaX;
        var counts := if deltaY < 0.0 then sideways <= -deltaY && old(zoom) < 32.0
                      else deltaY > 0.0 && sideways <= deltaY && old(zoom) > 1.0;
        var base := if timeStamp - old(wheelTime) < 180.0 then old(wheelZoom) else old(zoom);
        if counts then
          && wheelZoom == Aim(base, factor)
          && wheelTime == timeStamp
          && Quarter(zoom) && zoom - 0.125 <= wheelZoom < zoom + 0.125
        else
          wheelZoom == old(wheelZoom) && wheelTime == old(wheelTime) && zoom == old(zoom)
    {
      if deltaY == 0.0 || Magnitude(deltaX) > Magnitude(deltaY) {
        return;
      }
      if (zoom == 1.0 && deltaY > 0.0) || (zoom == 32.0 && deltaY < 0.0) {
        return;
      }
      var baseZoom := WheelBase(zoom, wheelZoom, timeStamp - wheelTime);
      var targetZoom := Aim(baseZoom, factor);
      wheelZoom, wheelTime := targetZoom, timeStamp;
      RoundedStays(targetZoom);
      var nextZoom := Rounded(targetZoom);
      if nextZoom == zoom {
        return;
      }
      ZoomAbout(nextZoom, Clamp(pointerX, 0.0, clientWidth));
    }

    /** The zoom controls. `value` is absent when it is not a finite number. */
    method ChangeZoom(value: Option<real>, center: Option<real>)
      requires Valid()
      modifies this
      ensures Valid() && clientWidth == old(clientWidth)
      ensures wheelTime == 0.0
      ensures zoom == wheelZoom == (if value.Some? then Clamp(value.value, 1.0, 32.0) else 1.0)
      ensures centre == if center.Some? then center.value else old(Under(clientWidth / 2.0))
      ensures scrollLeft == Settled(centre, Canvas(), clientWidth)
      ensures center.None? && zoom >= old(zoom) ==> Under(clientWidth / 2.0) == old(Under(clientWidth / 2.0))
    {
      centre := if center.Some? then center.value else (scrollLeft + clientWidth / 2.0) / Canvas();
      var nextZoom := if value.Some? then Clamp(value.value, 1.0, 32.0) else 1.0;
      wheelZoom, wheelTime := nextZoom, 0.0;
      CanvasGrows(clientWidth, zoom, nextZoom);
      if nextZoom >= zoom {
        MiddleAnchors(clientWidth, Canvas(), CanvasWidth(clientWidth, nextZoom), scrollLeft);
      }
      zoom := nextZoom;
      ApplyCentre();
    }

    /** The minus button: to a whole step, strictly lower unless already at the bottom. */
    method ZoomOut()
      requires Valid()
      modifies this
      ensures Valid() && WholeStep(zoom)
      ensures zoom - 0.5 <= old(zoom) / 1.5 < zoom + 0.5
      ensures if old(zoom) == 1.0 then zoom == 1.0 else zoom < old(zoom)
    {
      ZoomOutTarget(zoom);
      var rounded := Round(zoom / 1.5) as real;
      ChangeZoom(Some(if rounded < 1.0 then 1.0 else rounded), None);
    }

    /** The plus button: strictly higher unless already at the top, and the middle stays put. */
    method ZoomIn()
      requires Valid()
      modifies this
      ensures Valid() && WholeStep(zoom)
      ensures zoom - 1.0 < old(zoom) * 1.5 && (zoom < 32.0 ==> old(zoom) * 1.5 <= zoom)
      ensures if old(zoom) == 32.0 then zoom == 32.0 else zoom > old(zoom)
      ensures Under(clientWidth / 2.0) == old(Under(clientWidth / 2.0))
    {
      ZoomInTarget(zoom);
      var raised := Ceil(zoom * 1.5) as real;
      ChangeZoom(Some(if raised > 32.0 then 32.0 else raised), None);
    }
  }

  lemma {:induction false} ZoomOutTarget(zoom: real)
    requires 1.0 <= zoom <= 32.0
    ensures
      var n := Round(zoom / 1.5) as real;
      var target := if n < 1.0 then 1.0 else n;
      && WholeStep(target) && 1.0 <= target <= 32.0 && target - 0.5 <= zoom / 1.5 < target + 0.5
      && if zoom == 1.0 then target == 1.0 else target < zoom
  {
  }

  lemma {:induction false} ZoomInTarget(zoom: real)
    requires 1.0 <= zoom <= 32.0
    ensures
      var n := Ceil(zoom * 1.5) as real;
      var target := if n > 32.0 then 32.0 else n;
      && WholeStep(target) && 1.0 <= target <= 32.0
      && target - 1.0 < zoom * 1.5 && (target < 32.0 ==> zoom * 1.5 <= target)
      && if zoom == 32.0 then target == 32.0 else target > zoom
  {
  }

  lemma {:induction false} CanvasCovers(client: real, zoom: real)
    requires client >= 1.0 && zoom >= 1.0
    ensures CanvasWidth(client, zoom) == client * zoom >= client
  {
  }

  /** Where the layout effect leaves the viewport after the centre was stored for `pointer`. */
  function Settled(centre: real, canvas: real, client: real): real {
    Clamp(centre * canvas - client / 2.0, 0.0, canvas - client)
  }

  lemma {:induction false} Anchors(client: real, canvas: real, wider: real, scroll: real, pointer: real)
    requires 0.0 < client <= canvas && client <= wider
    requires 0.0 <= pointer <= client
    requires 0.0 <= scroll <= canvas - client
    ensures
      var position := (scroll + pointer) / canvas;
      var centre := position + (client / 2.0 - pointer) / wider;
      var raw := Anchored(position, wider, pointer);
      && Anchored(centre, wider, client / 2.0) == raw
      && ((Settled(centre, wider, client) + pointer) / wider == position <==> 0.0 <= raw <= wider - client)
      && (canvas <= wider ==> (Settled(centre, wider, client) + pointer) / wider == position)
  {
    var position := (scroll + pointer) / canvas;
    assert Settled(position + (client / 2.0 - pointer) / wider, wider, client)
        == Clamp(Anchored(position, wider, pointer), 0.0, wider - client)
    by {
      CentreAnchors(position, wider, client, pointer);
    }
    AnchoredIffUnclamped(position, wider, client, pointer);
    if canvas <= wider {
      ZoomInNeedsNoClamp(scroll, pointer, client, canvas, wider);
    }
  }

  lemma {:induction false} MiddleAnchors(client: real, canvas: real, wider: real, scroll: real)
    requires 0.0 < client <= canvas <= wider
    requires 0.0 <= scroll <= canvas - client
    ensures
      var centre := (scroll + client / 2.0) / canvas;
      (Settled(centre, wider, client) + client / 2.0) / wider == centre
  {
    var centre := (scroll + client / 2.0) / canvas;
    AnchoredIffUnclamped(centre, wider, client, client / 2.0);
    ZoomInNeedsNoClamp(scroll, client / 2.0, client, canvas, wider);
  }

  lemma {:induction false} CanvasGrows(client: real, zoom1: real, zoom2: real)
    requires client >= 1.0 && 1.0 <= zoom1 && 1.0 <= zoom2
    ensures CanvasWidth(client, zoom2) == client * zoom2
    ensures client <= CanvasWidth(client, zoom1) && client <= CanvasWidth(client, zoom2)
    ensures zoom1 <= zoom2 ==> CanvasWidth(client, zoom1) <= CanvasWidth(client, zoom2)
  {
  }
}
