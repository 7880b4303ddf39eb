/** The collection-view host (DDCollectionView): the same gesture dispatch as the
    plain host, started from the cell under the touch, and the auto-scroll that
    moves the content while an item is dragged near an edge. */
module CollectionView {
  import opened Geometry
  import opened DragItem
  import opened DragView

  /** The public tuning properties, with their defaults below. */
  datatype Config = Config(zone: Insets, dragSpeedCutoff: real, speedLimit: Insets, stretchLimit: Insets)

  const DefaultConfig := Config(Insets(50.0, 50.0, 50.0, 50.0), 500.0,
                                Insets(100.0, 100.0, 100.0, 100.0), Insets(50.0, 50.0, 50.0, 50.0))

  /** The scroll view's geometry an auto-scroll step reads: frame and bounds
      sizes, content insets and content size. */
  datatype Viewport = Viewport(frame: Size, bounds: Size, inset: Insets, contentSize: Size)

  /** The auto-scroll state: the private properties and the content offset. */
  datatype Scroll = Scroll(lastKnownTouch: Option<Point>, speed: Point,
                           lockHorizontal: bool, lockVertical: bool, offset: Point)

  /** `throttleSpeed`. */
  function ThrottleSpeed(maxSpeed: real, factor: real): real
  {
    Min(maxSpeed, maxSpeed * factor)
  }

  /** One axis of `recalculateAutoScrollSpeedAndDirectionForDragItem`: the touch
      coordinate, the zone widths and insets at the low and high edge, the view's
      extent, the speed limits, the overscroll at each edge and the stretch limits. */
  datatype Axis = Axis(touch: real, zoneLow: real, zoneHigh: real, insetLow: real, insetHigh: real,
                       extent: real, limitLow: real, limitHigh: real,
                       overLow: real, overHigh: real, stretchLow: real, stretchHigh: real)

  /** The axis speed, and whether the touch is in the centre region (which unlocks the axis). */
  datatype AxisResult = AxisResult(speed: real, unlock: bool)

  function LowThreshold(a: Axis): real
  {
    a.zoneLow + a.insetLow
  }

  function HighThreshold(a: Axis): real
  {
    a.extent - a.zoneHigh - a.insetHigh
  }

  /** Strictly inside the low edge's band: between the outer edge and the threshold. */
  predicate InLowBand(a: Axis)
  {
    LowThreshold(a) - a.zoneLow < a.touch < LowThreshold(a)
  }

  /** Strictly inside the high edge's band, when not already below the low threshold. */
  predicate InHighBand(a: Axis)
  {
    a.touch >= LowThreshold(a) && HighThreshold(a) < a.touch < HighThreshold(a) + a.zoneHigh
  }

  function AxisSpeed(a: Axis): AxisResult
  {
    var low, high := LowThreshold(a), HighThreshold(a);
    if a.touch < low then
      if a.touch > low - a.zoneLow then
        var speed := -ThrottleSpeed(a.limitLow, (low - a.touch) / a.zoneLow);
        AxisResult(if a.overLow >= a.stretchLow then 0.0 else speed, false)
      else AxisResult(0.0, false)
    else if a.touch > high then
      if a.touch < high + a.zoneHigh then
        var speed := ThrottleSpeed(a.limitHigh, (a.touch - high) / a.zoneHigh);
        AxisResult(if a.overHigh >= a.stretchHigh then 0.0 else speed, false)
      else AxisResult(0.0, false)
    else AxisResult(0.0, true)
  }

  function HorizontalAxis(c: Config, v: Viewport, offset: Point, t: Point): Axis
  {
    Axis(t.x, c.zone.left, c.zone.right, v.inset.left, v.inset.right, v.frame.width,
         c.speedLimit.left, c.speedLimit.right,
         -offset.x - v.inset.left, (offset.x + v.bounds.width) - v.contentSize.width + v.inset.right,
         c.stretchLimit.left, c.stretchLimit.right)
  }

  function VerticalAxis(c: Config, v: Viewport, offset: Point, t: Point): Axis
  {
    Axis(t.y, c.zone.top, c.zone.bottom, v.inset.top, v.inset.bottom, v.frame.height,
         c.speedLimit.top, c.speedLimit.bottom,
         -offset.y - v.inset.top, (offset.y + v.bounds.height) - v.contentSize.height + v.inset.bottom,
         c.stretchLimit.top, c.stretchLimit.bottom)
  }

  /** The speed recalculation: nothing without a known touch; otherwise both axes
      afresh, and each lock cleared when the touch is in that axis's centre region. */
  function Recalculated(c: Config, v: Viewport, st: Scroll): Scroll
  {
    match st.lastKnownTouch
    case None => st
    case Some(t) =>
      var horizontal := AxisSpeed(HorizontalAxis(c, v, st.offset, t));
      var vertical := AxisSpeed(VerticalAxis(c, v, st.offset, t));
      st.(speed := Point(horizontal.speed, vertical.speed),
          lockHorizontal := st.lockHorizontal && !horizontal.unlock,
          lockVertical := st.lockVertical && !vertical.unlock)
  }

  /** The start-of-drag locks: while no touch is known, an axis whose touch lies
      outside the centre region is locked. */
  function StartLocks(c: Config, v: Viewport, st: Scroll, local: Point): Scroll
  {
    if st.lastKnownTouch.Some? then st
    else
      var width := v.frame.width - v.inset.right;
      var height := v.frame.height - v.inset.bottom;
      st.(lockHorizontal := st.lockHorizontal || local.x < c.zone.left || local.x > width - c.zone.right,
          lockVertical := st.lockVertical || local.y < c.zone.top || local.y > height - c.zone.bottom)
  }

  /** `updateContentOffsetForDragItem`: no move for a fast drag or before the
      first tick; otherwise each unlocked axis moves by its speed over the frame rate. */
  function OffsetUpdated(c: Config, st: Scroll, velocity: real, frameRate: real): Scroll
  {
    if velocity > c.dragSpeedCutoff || frameRate == 0.0 then st
    else
      var sx := if st.lockHorizontal then 0.0 else st.speed.x;
      var sy := if st.lockVertical then 0.0 else st.speed.y;
      st.(offset := Point(st.offset.x + sx / frameRate, st.offset.y + sy / frameRate))
  }

  /** `autoScrollForDragItem` for an item that is `completed` or not, whose touch
      is at `local` in the view's coordinates, as written: the known touch is
      never cleared. */
  function AutoScrolled(c: Config, v: Viewport, st: Scroll, completed: bool, local: Point,
                        velocity: real, frameRate: real): Scroll
  {
    if completed then st
    else
      var a := StartLocks(c, v, st, local);
      var b := if Some(local) != a.lastKnownTouch then Recalculated(c, v, a.(lastKnownTouch := Some(local))) else a;
      OffsetUpdated(c, b, velocity, frameRate)
  }

  /** The evidently intended step: a completed item also forgets the known touch,
      so that the next drag is treated as new. */
  function AutoScrolledResetting(c: Config, v: Viewport, st: Scroll, completed: bool, local: Point,
                                 velocity: real, frameRate: real): Scroll
  {
    if completed then st.(lastKnownTouch := None)
    else AutoScrolled(c, v, st, false, local, velocity, frameRate)
  }

  // ---------------------------------------------------------------------------
  // Properties of the speed computation

  /** The throttled speed never exceeds the limit, and for a non-negative limit
      and a factor in [0, 1] it is the limit scaled by the factor. */
  lemma ThrottleBounds(maxSpeed: real, factor: real)
    ensures ThrottleSpeed(maxSpeed, factor) <= maxSpeed
    ensures maxSpeed >= 0.0 && 0.0 <= factor <= 1.0 ==>
              ThrottleSpeed(maxSpeed, factor) == maxSpeed * factor &&
              0.0 <= ThrottleSpeed(maxSpeed, factor)
  {
    if maxSpeed >= 0.0 && 0.0 <= factor <= 1.0 {
      assert maxSpeed * factor <= maxSpeed * 1.0;
      assert maxSpeed * factor >= 0.0;
    }
  }

  /** A larger factor never throttles to less, for a non-negative limit. */
  lemma ThrottleMonotone(maxSpeed: real, f1: real, f2: real)
    requires maxSpeed >= 0.0 && f1 <= f2
    ensures ThrottleSpeed(maxSpeed, f1) <= ThrottleSpeed(maxSpeed, f2)
  {
    assert maxSpeed * f1 <= maxSpeed * f2;
  }

  /** The band factor `distance / zone` lies strictly between 0 and 1. */
  lemma BandFactor(a: Axis)
    ensures InLowBand(a) ==> a.zoneLow > 0.0 && 0.0 < (LowThreshold(a) - a.touch) / a.zoneLow < 1.0
    ensures InHighBand(a) ==> a.zoneHigh > 0.0 && 0.0 < (a.touch - HighThreshold(a)) / a.zoneHigh < 1.0
  {
    if InLowBand(a) {
      QuotientInUnit(LowThreshold(a) - a.touch, a.zoneLow);
    }
    if InHighBand(a) {
      QuotientInUnit(a.touch - HighThreshold(a), a.zoneHigh);
    }
  }

  lemma ProductSign(a: real, b: real)
    requires b > 0.0
    ensures a <= 0.0 ==> a * b <= 0.0
    ensures a >= 1.0 ==> a * b >= b
    ensures a * b > 0.0 ==> a > 0.0
  {
    if a >= 1.0 {
      assert a * b == (a - 1.0) * b + b;
    }
  }

  lemma QuotientInUnit(d: real, z: real)
    requires 0.0 < d < z
    ensures 0.0 < d / z < 1.0
  {
    var q := d / z;
    assert q * z == d;
    ProductSign(q, z);
    assert q > 0.0;
    assert q >= 1.0 ==> q * z >= z;
  }

  lemma QuotientMonotone(d1: real, d2: real, z: real)
    requires z > 0.0 && d1 <= d2
    ensures d1 / z <= d2 / z
  {
    var q1, q2 := d1 / z, d2 / z;
    assert q1 * z == d1 && q2 * z == d2;
    assert (q1 - q2) * z == d1 - d2;
    ProductSign(q1 - q2, z);
  }

  /** An axis speed is non-zero only strictly inside an edge band; the low edge
      gives a non-positive speed and the high edge a non-negative one; each is at
      most that edge's limit in size (limits taken non-negative). */
  lemma AxisSpeedShape(a: Axis)
    requires a.limitLow >= 0.0 && a.limitHigh >= 0.0
    ensures var r := AxisSpeed(a).speed;
      && (r != 0.0 ==> InLowBand(a) || InHighBand(a))
      && (InLowBand(a) ==> -a.limitLow <= r <= 0.0)
      && (InHighBand(a) ==> 0.0 <= r <= a.limitHigh)
  {
    BandFactor(a);
    if InLowBand(a) {
      ThrottleBounds(a.limitLow, (LowThreshold(a) - a.touch) / a.zoneLow);
    } else if InHighBand(a) {
      ThrottleBounds(a.limitHigh, (a.touch - HighThreshold(a)) / a.zoneHigh);
    }
  }

  /** Inside a band and within the stretch limit, the speed is proportional to how
      far into the band the touch is. */
  lemma AxisSpeedProportional(a: Axis)
    ensures InLowBand(a) && a.overLow < a.stretchLow && a.limitLow >= 0.0 ==>
              AxisSpeed(a).speed == -(a.limitLow * ((LowThreshold(a) - a.touch) / a.zoneLow))
    ensures InHighBand(a) && a.overHigh < a.stretchHigh && a.limitHigh >= 0.0 ==>
              AxisSpeed(a).speed == a.limitHigh * ((a.touch - HighThreshold(a)) / a.zoneHigh)
  {
    BandFactor(a);
    if InLowBand(a) {
      ThrottleBounds(a.limitLow, (LowThreshold(a) - a.touch) / a.zoneLow);
    } else if InHighBand(a) {
      ThrottleBounds(a.limitHigh, (a.touch - HighThreshold(a)) / a.zoneHigh);
    }
  }

  /** Once the overscroll at an edge reaches its stretch limit, that edge gives no speed. */
  lemma AxisStretchCutoff(a: Axis)
    ensures InLowBand(a) && a.overLow >= a.stretchLow ==> AxisSpeed(a).speed == 0.0
    ensures InHighBand(a) && a.overHigh >= a.stretchHigh ==> AxisSpeed(a).speed == 0.0
  {
  }

  /** The axis unlocks exactly when the touch is in the centre region, thresholds
      included, and then has no speed. */
  lemma AxisCentre(a: Axis)
    ensures AxisSpeed(a).unlock <==> LowThreshold(a) <= a.touch <= HighThreshold(a)
    ensures AxisSpeed(a).unlock ==> AxisSpeed(a).speed == 0.0
  {
  }

  /** Deeper into the low band is faster towards the low edge. */
  lemma DeeperIsFaster(a: Axis, t: real)
    requires a.limitLow >= 0.0 && a.overLow < a.stretchLow
    requires InLowBand(a) && InLowBand(a.(touch := t)) && t <= a.touch
    ensures AxisSpeed(a.(touch := t)).speed <= AxisSpeed(a).speed
  {
    var b := a.(touch := t);
    var f1, f2 := (LowThreshold(a) - a.touch) / a.zoneLow, (LowThreshold(b) - t) / a.zoneLow;
    BandFactor(a);
    QuotientMonotone(LowThreshold(a) - a.touch, LowThreshold(b) - t, a.zoneLow);
    ThrottleMonotone(a.limitLow, f1, f2);
  }

  // ---------------------------------------------------------------------------
  // Properties of an auto-scroll step

  /** For a completed item the step changes nothing: the reset is empty. */
  lemma CompletedChangesNothing(c: Config, v: Viewport, st: Scroll, local: Point, velocity: real, frameRate: real)
    ensures AutoScrolled(c, v, st, true, local, velocity, frameRate) == st
  {
  }

  /** The content offset stays put for a drag faster than the cut-off or before
      the item's first tick, and along a locked axis; otherwise each axis moves by
      its speed over the frame rate. */
  lemma OffsetRule(c: Config, st: Scroll, velocity: real, frameRate: real)
    ensures var r := OffsetUpdated(c, st, velocity, frameRate);
      && r.(offset := st.offset) == st
      && (velocity > c.dragSpeedCutoff || frameRate == 0.0 ==> r.offset == st.offset)
      && (st.lockHorizontal ==> r.offset.x == st.offset.x)
      && (st.lockVertical ==> r.offset.y == st.offset.y)
      && (velocity <= c.dragSpeedCutoff && frameRate != 0.0 && !st.lockHorizontal ==>
            r.offset.x == st.offset.x + st.speed.x / frameRate)
      && (velocity <= c.dragSpeedCutoff && frameRate != 0.0 && !st.lockVertical ==>
            r.offset.y == st.offset.y + st.speed.y / frameRate)
  {
  }

  /** The speed is recomputed only when the touch moved; the known touch is then
      the new one. */
  lemma SpeedOnlyOnMove(c: Config, v: Viewport, st: Scroll, local: Point, velocity: real, frameRate: real)
    ensures var r := AutoScrolled(c, v, st, false, local, velocity, frameRate);
      && r.lastKnownTouch == Some(local)
      && (st.lastKnownTouch == Some(local) ==>
            r.speed == st.speed && r.lockHorizontal == st.lockHorizontal && r.lockVertical == st.lockVertical)
  {
  }

  /** The locks of one step. While no touch is known, an axis whose touch lies
      outside the start zone is locked; a lock is never set otherwise. A touch
      that moved clears an axis's lock exactly when it lies in that axis's centre
      region, thresholds included, so a set lock persists while the touch stays
      outside it; a touch that did not move keeps both locks. */
  lemma LocksRule(c: Config, v: Viewport, st: Scroll, local: Point, velocity: real, frameRate: real)
    ensures var r := AutoScrolled(c, v, st, false, local, velocity, frameRate);
      && (st.lastKnownTouch.Some? ==> (r.lockHorizontal ==> st.lockHorizontal) && (r.lockVertical ==> st.lockVertical))
      && (var hx := HorizontalAxis(c, v, st.offset, local);
          st.lastKnownTouch != Some(local) && LowThreshold(hx) <= local.x <= HighThreshold(hx) ==> !r.lockHorizontal)
      && (var vy := VerticalAxis(c, v, st.offset, local);
          st.lastKnownTouch != Some(local) && LowThreshold(vy) <= local.y <= HighThreshold(vy) ==> !r.lockVertical)
    ensures var r := AutoScrolled(c, v, st, false, local, velocity, frameRate);
      var moved := st.lastKnownTouch != Some(local);
      var hx, vy := HorizontalAxis(c, v, st.offset, local), VerticalAxis(c, v, st.offset, local);
      && (r.lockHorizontal <==>
            (st.lockHorizontal || (st.lastKnownTouch.None? &&
               (local.x < c.zone.left || local.x > v.frame.width - v.inset.right - c.zone.right))) &&
            !(moved && LowThreshold(hx) <= local.x <= HighThreshold(hx)))
      && (r.lockVertical <==>
            (st.lockVertical || (st.lastKnownTouch.None? &&
               (local.y < c.zone.top || local.y > v.frame.height - v.inset.bottom - c.zone.bottom))) &&
            !(moved && LowThreshold(vy) <= local.y <= HighThreshold(vy)))
  {
    var a := StartLocks(c, v, st, local);
    if st.lastKnownTouch != Some(local) {
      AxisCentre(HorizontalAxis(c, v, a.offset, local));
      AxisCentre(VerticalAxis(c, v, a.offset, local));
    }
  }

  /** A moved touch in the centre region of both axes stops the auto-scroll:
      both speeds are 0 and the offset stays. */
  lemma CentreStopsScroll(c: Config, v: Viewport, st: Scroll, local: Point, velocity: real, frameRate: real)
    requires st.lastKnownTouch != Some(local)
    requires var hx, vy := HorizontalAxis(c, v, st.offset, local), VerticalAxis(c, v, st.offset, local);
      LowThreshold(hx) <= local.x <= HighThreshold(hx) && LowThreshold(vy) <= local.y <= HighThreshold(vy)
    ensures var r := AutoScrolled(c, v, st, false, local, velocity, frameRate);
      r.speed == Origin && r.offset == st.offset && r.lastKnownTouch == Some(local)
  {
    AxisCentre(HorizontalAxis(c, v, st.offset, local));
    AxisCentre(VerticalAxis(c, v, st.offset, local));
  }

  /** On the first touch of a view, a touch beyond the start zone at any edge
      locks that axis for the step, so nothing scrolls along it. At the right and
      bottom edges this always holds; at the left and top edges it needs a
      non-negative inset there, since the start test ignores that inset while the
      centre region begins after it. */
  lemma FirstTouchLocks(c: Config, v: Viewport, st: Scroll, local: Point, velocity: real, frameRate: real)
    requires st.lastKnownTouch.None?
    ensures var r := AutoScrolled(c, v, st, false, local, velocity, frameRate);
      && ((local.x < c.zone.left && v.inset.left >= 0.0) ||
          local.x > v.frame.width - v.inset.right - c.zone.right ==>
            r.lockHorizontal && r.offset.x == st.offset.x)
      && ((local.y < c.zone.top && v.inset.top >= 0.0) ||
          local.y > v.frame.height - v.inset.bottom - c.zone.bottom ==>
            r.lockVertical && r.offset.y == st.offset.y)
  {
    LocksRule(c, v, st, local, velocity, frameRate);
  }

  /** As written, with a positive left inset a first touch between the zone and
      the left threshold is outside the centre region yet not locked, and inside
      the band, away from the stretch limit, it scrolls towards the left edge on
      that first step. */
  lemma InsetStartNotLocked(c: Config, v: Viewport, st: Scroll, local: Point, velocity: real, frameRate: real)
    requires st.lastKnownTouch.None? && !st.lockHorizontal
    requires c.zone.left <= local.x < c.zone.left + v.inset.left
    requires local.x <= v.frame.width - v.inset.right - c.zone.right
    ensures var r := AutoScrolled(c, v, st, false, local, velocity, frameRate);
      var hx := HorizontalAxis(c, v, st.offset, local);
      && !r.lockHorizontal && local.x < LowThreshold(hx)
      && (InLowBand(hx) && hx.overLow < hx.stretchLow && hx.limitLow > 0.0 ==> r.speed.x < 0.0)
  {
    var hx := HorizontalAxis(c, v, st.offset, local);
    LocksRule(c, v, st, local, velocity, frameRate);
    if InLowBand(hx) && hx.overLow < hx.stretchLow && hx.limitLow > 0.0 {
      var f := (LowThreshold(hx) - local.x) / hx.zoneLow;
      BandFactor(hx);
      AxisSpeedProportional(hx);
      ProductSign(f, hx.limitLow);
      assert hx.limitLow * f == f * hx.limitLow;
    }
  }

  /** As written, once any touch is known it stays known: the start-of-drag lock
      check runs at most once for the view. */
  lemma {:induction false} KnownTouchStays(c: Config, v: Viewport, st: Scroll, steps: seq<(bool, Point, real, real)>)
    requires st.lastKnownTouch.Some?
    ensures AutoScrolledAll(c, v, st, steps).lastKnownTouch.Some?
    decreases |steps|
  {
    if |steps| > 0 {
      var (completed, local, velocity, frameRate) := steps[0];
      KnownTouchStays(c, v, AutoScrolled(c, v, st, completed, local, velocity, frameRate), steps[1..]);
    }
  }

  /** A run of auto-scroll steps, each given as (completed, touch, velocity, frame rate). */
  function AutoScrolledAll(c: Config, v: Viewport, st: Scroll, steps: seq<(bool, Point, real, real)>): Scroll
    decreases |steps|
  {
    if |steps| == 0 then st
    else
      var (completed, local, velocity, frameRate) := steps[0];
      AutoScrolledAll(c, v, AutoScrolled(c, v, st, completed, local, velocity, frameRate), steps[1..])
  }

  /** As written: once a touch is known, a later drag that starts inside the
      left band, away from the stretch limit, is not locked and scrolls towards
      the left edge on its first step. */
  lemma LaterDragNotLocked(c: Config, v: Viewport, st: Scroll, local: Point, velocity: real, frameRate: real)
    requires st.lastKnownTouch.Some? && st.lastKnownTouch != Some(local) && !st.lockHorizontal
    requires var h := HorizontalAxis(c, v, st.offset, local);
      InLowBand(h) && h.overLow < h.stretchLow && h.limitLow > 0.0
    requires velocity <= c.dragSpeedCutoff && frameRate > 0.0
    ensures var r := AutoScrolled(c, v, st, false, local, velocity, frameRate);
      !r.lockHorizontal && r.offset.x < st.offset.x
  {
    var h := HorizontalAxis(c, v, st.offset, local);
    var f := (LowThreshold(h) - local.x) / h.zoneLow;
    BandFactor(h);
    AxisSpeedProportional(h);
    assert AxisSpeed(h).speed == -(h.limitLow * f);
    ProductSign(f, h.limitLow);
    assert h.limitLow * f == f * h.limitLow;
    var b := Recalculated(c, v, st.(lastKnownTouch := Some(local)));
    assert b.speed.x == -(h.limitLow * f) && !b.lockHorizontal;
    var q := b.speed.x / frameRate;
    assert q * frameRate == b.speed.x;
    ProductSign(q + 1.0, frameRate);
    ProductSign(q, frameRate);
  }

  const Phone := Viewport(Size(320.0, 480.0), Size(320.0, 480.0), Insets(0.0, 0.0, 0.0, 0.0), Size(320.0, 2000.0))
  const Resting := Scroll(None, Origin, false, false, Origin)

  /** A concrete run: on a 320 by 480 view with the default tuning, a first drag
      held at the centre and then completed leaves the touch known, so a second
      drag starting 10 points from the left edge is not locked and scrolls at
      once, while that same touch on a fresh view is locked. */
  lemma SecondDragNotLocked()
    ensures var first := AutoScrolled(DefaultConfig, Phone, Resting, false, Point(160.0, 240.0), 0.0, 60.0);
      var done := AutoScrolled(DefaultConfig, Phone, first, true, Point(160.0, 240.0), 0.0, 60.0);
      var second := AutoScrolled(DefaultConfig, Phone, done, false, Point(10.0, 240.0), 0.0, 60.0);
      && !second.lockHorizontal && second.offset.x < done.offset.x
      && AutoScrolled(DefaultConfig, Phone, Resting, false, Point(10.0, 240.0), 0.0, 60.0).lockHorizontal
  {
    var centre, edge := Point(160.0, 240.0), Point(10.0, 240.0);
    var first := AutoScrolled(DefaultConfig, Phone, Resting, false, centre, 0.0, 60.0);
    LocksRule(DefaultConfig, Phone, Resting, centre, 0.0, 60.0);
    CentreStopsScroll(DefaultConfig, Phone, Resting, centre, 0.0, 60.0);
    CompletedChangesNothing(DefaultConfig, Phone, first, centre, 0.0, 60.0);
    LaterDragNotLocked(DefaultConfig, Phone, first, edge, 0.0, 60.0);
    FirstTouchLocks(DefaultConfig, Phone, Resting, edge, 0.0, 60.0);
  }

  /** With the reset, every drag that follows a completed one gets the start
      locks: one starting left of the zone is locked and does not scroll sideways. */
  lemma ResettingLocksEveryDrag(c: Config, v: Viewport, st: Scroll, p: Point, local: Point,
                                velocity: real, frameRate: real)
    requires v.inset.left >= 0.0 && local.x < c.zone.left
    ensures var done := AutoScrolledResetting(c, v, st, true, p, velocity, frameRate);
      var next := AutoScrolledResetting(c, v, done, false, local, velocity, frameRate);
      next.lockHorizontal && next.offset.x == done.offset.x
  {
    var done := AutoScrolledResetting(c, v, st, true, p, velocity, frameRate);
    FirstTouchLocks(c, v, done, local, velocity, frameRate);
  }

  /** The item `beginPossibleDragAndDrop` keeps: none unless the view has a
      delegate, the cell lookups under the touch all succeed (`frameCenter`, the
      centre of the cell's frame in the shared superview) and the delegate's
      `ddItemCanDrag` approves. */
  function CellOffer(hasDelegate: bool, frameCenter: Option<Point>, canDrag: bool): Option<ItemState>
  {
    if hasDelegate && frameCenter.Some? && canDrag then Some(NewItem(frameCenter.value)) else None
  }

  /** The collection view. */
  class Host {
    var hasDelegate: bool
    var nativeItem: Item?
    var autoScrollZone: Insets
    var autoScrollDragSpeedCutoff: real
    var autoScrollSpeedLimit: Insets
    var autoScrollBoundsStretchLimit: Insets
    var lastKnownTouchLocation: Option<Point>
    var autoScrollSpeed: Point
    var lockHorizontalAutoScroll: bool
    var lockVerticalAutoScroll: bool
    var contentOffset: Point

    function Tuning(): Config
      reads this
    {
      Config(autoScrollZone, autoScrollDragSpeedCutoff, autoScrollSpeedLimit, autoScrollBoundsStretchLimit)
    }

    function Scrolling(): Scroll
      reads this
    {
      Scroll(lastKnownTouchLocation, autoScrollSpeed, lockHorizontalAutoScroll, lockVerticalAutoScroll, contentOffset)
    }

    ghost predicate Valid()
      reads this, if nativeItem != null then {nativeItem} else {}
    {
      nativeItem != null ==> nativeItem.Valid()
    }

    constructor (withDelegate: bool, offset: Point)
      ensures Valid() && hasDelegate == withDelegate && nativeItem == null
      ensures Tuning() == DefaultConfig
      ensures Scrolling() == Resting.(offset := offset)
    {
      hasDelegate, nativeItem := withDelegate, null;
      autoScrollZone := Insets(50.0, 50.0, 50.0, 50.0);
      autoScrollDragSpeedCutoff := 500.0;
      autoScrollSpeedLimit := Insets(100.0, 100.0, 100.0, 100.0);
      autoScrollBoundsStretchLimit := Insets(50.0, 50.0, 50.0, 50.0);
      lastKnownTouchLocation, autoScrollSpeed := None, Origin;
      lockHorizontalAutoScroll, lockVerticalAutoScroll := false, false;
      contentOffset := offset;
    }

    /** `gestureUpdate`, as for the plain host; `frameCenter` and `canDrag` are
        what a `began` finds (see `BeginPossibleDragAndDrop`). The item that
        received the phase is returned. */
    method GestureUpdate(phase: Phase, location: Point, canDrop: bool, frameCenter: Option<Point>, canDrag: bool)
      returns (forwarded: Item?)
      requires Valid()
      modifies this, if nativeItem != null then {nativeItem} else {}
      ensures Valid() && hasDelegate == old(hasDelegate)
      ensures Tuning() == old(Tuning()) && Scrolling() == old(Scrolling())
      ensures nativeItem == if phase == Ended then null else forwarded
      ensures var offer := CellOffer(hasDelegate, frameCenter, canDrag);
        && (phase == Began && offer.Some? ==>
              forwarded != null && fresh(forwarded) &&
              forwarded.State() == OnGesture(offer.value, Began, location, canDrop))
        && (!(phase == Began && offer.Some?) ==> forwarded == old(nativeItem))
        && (!(phase == Began && offer.Some?) && old(nativeItem) != null ==>
              forwarded.State() == OnGesture(old(nativeItem.State()), phase, location, canDrop))
        && (phase == Began && offer.Some? && old(nativeItem) != null ==>
              old(nativeItem).State() == old(nativeItem.State()))
    {
      if phase == Began {
        BeginPossibleDragAndDrop(frameCenter, canDrag);
      }
      forwarded := nativeItem;
      if nativeItem != null {
        nativeItem.UpdateWithGesture(phase, location, canDrop);
      }
      if phase == Ended {
        nativeItem := null;
      }
    }

    /** `beginPossibleDragAndDrop`: `frameCenter` is none when there is no item
        at the touch, no layout record, no cell or no snapshot, and otherwise the
        centre of the cell's frame converted into the shared superview;
        `canDrag` is the delegate's answer for the new item. */
    method BeginPossibleDragAndDrop(frameCenter: Option<Point>, canDrag: bool)
      requires Valid()
      modifies this
      ensures Valid() && hasDelegate == old(hasDelegate)
      ensures Tuning() == old(Tuning()) && Scrolling() == old(Scrolling())
      ensures var offer := CellOffer(hasDelegate, frameCenter, canDrag);
        && (offer.Some? ==> nativeItem != null && fresh(nativeItem) && nativeItem.State() == offer.value)
        && (offer.None? ==> nativeItem == old(nativeItem))
    {
      if !hasDelegate || frameCenter.None? {
        return;
      }
      var item := new Item(frameCenter.value, false, true);
      if canDrag {
        nativeItem := item;
      }
    }

    /** `autoScrollForDragItem`: `local` is the item's touch converted into this
        view's coordinates and `v` the view's geometry. */
    method AutoScrollForDragItem(item: Item, v: Viewport, local: Point)
      modifies this
      ensures Scrolling() == AutoScrolled(old(Tuning()), v, old(Scrolling()), item.isCompleted, local,
                                          item.touchVelocity, item.frameRate)
      ensures Tuning() == old(Tuning()) && hasDelegate == old(hasDelegate) && nativeItem == old(nativeItem)
    {
      if item.isCompleted {
        return;
      }
      if lastKnownTouchLocation.None? {
        var width := v.frame.width - v.inset.right;
        if local.x < autoScrollZone.left || local.x > width - autoScrollZone.right {
          lockHorizontalAutoScroll := true;
        }
        var height := v.frame.height - v.inset.bottom;
        if local.y < autoScrollZone.top || local.y > height - autoScrollZone.bottom {
          lockVerticalAutoScroll := true;
        }
      }
      if Some(local) != lastKnownTouchLocation {
        lastKnownTouchLocation := Some(local);
        RecalculateAutoScrollSpeedAndDirection(v);
      }
      UpdateContentOffset(item.touchVelocity, item.frameRate);
    }

    /** `recalculateAutoScrollSpeedAndDirectionForDragItem`. */
    method RecalculateAutoScrollSpeedAndDirection(v: Viewport)
      modifies this
      ensures Scrolling() == Recalculated(old(Tuning()), v, old(Scrolling()))
      ensures Tuning() == old(Tuning()) && hasDelegate == old(hasDelegate) && nativeItem == old(nativeItem)
    {
      if lastKnownTouchLocation.None? {
        return;
      }
      var t := lastKnownTouchLocation.value;
      var horizontal := AxisSpeedOf(HorizontalAxis(Tuning(), v, contentOffset, t));
      var vertical := AxisSpeedOf(VerticalAxis(Tuning(), v, contentOffset, t));
      autoScrollSpeed := Point(horizontal.speed, vertical.speed);
      if horizontal.unlock {
        lockHorizontalAutoScroll := false;
      }
      if vertical.unlock {
        lockVerticalAutoScroll := false;
      }
    }

    /** One axis: the speed is reset, then set inside an edge band and cut to 0
        beyond the stretch limit; the centre region unlocks the axis. */
    static method AxisSpeedOf(a: Axis) returns (r: AxisResult)
      ensures r == AxisSpeed(a)
    {
      var speed := 0.0;
      var unlock := false;
      var low := a.zoneLow + a.insetLow;
      var high := a.extent - a.zoneHigh - a.insetHigh;
      if a.touch < low {
        if a.touch > low - a.zoneLow {
          var distance := low - a.touch;
          var factor := distance / a.zoneLow;
          speed := -ThrottleSpeed(a.limitLow, factor);
          if a.overLow >= a.stretchLow {
            speed := 0.0;
          }
        }
      } else if a.touch > high {
        if a.touch < high + a.zoneHigh {
          var distance := a.touch - high;
          var factor := distance / a.zoneHigh;
          speed := ThrottleSpeed(a.limitHigh, factor);
          if a.overHigh >= a.stretchHigh {
            speed := 0.0;
          }
        }
      } else {
        unlock := true;
      }
      r := AxisResult(speed, unlock);
    }

    /** `updateContentOffsetForDragItem`, given the item's touch velocity and frame rate. */
    method UpdateContentOffset(velocity: real, frameRate: real)
      modifies this
      ensures Scrolling() == OffsetUpdated(old(Tuning()), old(Scrolling()), velocity, frameRate)
      ensures Tuning() == old(Tuning()) && hasDelegate == old(hasDelegate) && nativeItem == old(nativeItem)
    {
      if velocity > autoScrollDragSpeedCutoff {
        return;
      }
      if frameRate == 0.0 {
        return;
      }
      var scrollSpeedX := if lockHorizontalAutoScroll then 0.0 else autoScrollSpeed.x;
      var scrollSpeedY := if lockVerticalAutoScroll then 0.0 else autoScrollSpeed.y;
      var delta := Point(scrollSpeedX / frameRate, scrollSpeedY / frameRate);
      contentOffset := Point(contentOffset.x + delta.x, contentOffset.y + delta.y);
    }
  }
}
