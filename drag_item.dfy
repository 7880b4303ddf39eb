/** The item being dragged (DDItem): a state machine driven by the long-press
    gesture's phases, by the completions of its pickup, drop and cancel
    animations, and by the ticks of its display link. Animations are recorded by
    the final centre they set and by the completion they will run later; a
    display link is a flag plus a count of links registered with the run loop;
    calls into the item's delegate are recorded in order. */
module DragItem {
  import opened Geometry

  /** The gesture phases the item tells apart; every other phase is `Other`. */
  datatype Phase = Began | Changed | Ended | Other

  /** An animation in flight, identified by the completion it will run. */
  datatype Animation = Pickup | Drop | Cancel

  /** A call the item makes into its delegate. */
  datatype Notice = ActiveDragUpdate | DidDrop(success: bool)

  /** The observable state of an item: the transit view's centre and whether it
      is in the shared superview, the bookkeeping fields, the display link
      (`linked`: the field is set; `liveLinks`: links registered and not yet
      invalidated), the animations in flight and the delegate calls made. */
  datatype ItemState = ItemState(transitCenter: Point, inSuperview: bool, hasDelegate: bool,
                                 originCenter: Point, previousTouchLocation: Point, touchLocation: Point,
                                 touchVelocity: real, frameRate: real, dropOffset: Point,
                                 isCompleted: bool, linked: bool, liveLinks: nat,
                                 pending: seq<Animation>, notices: seq<Notice>)

  /** An event the item reacts to: a gesture update (with the touch location in
      the shared superview and the delegate's `ddItemCanDrop` answer), the
      completion of the animation at `index` among those in flight, or a tick of
      the display link lasting `duration`. */
  datatype Event = Gesture(phase: Phase, location: Point, canDrop: bool)
                 | Finish(index: nat)
                 | Tick(duration: real)

  /** At most one display link runs, and it is the one the field holds. */
  ghost predicate SingleLink(s: ItemState)
  {
    s.liveLinks == if s.linked then 1 else 0
  }

  /** What `hypot` is taken to satisfy: 0 at the origin, and the same value
      for opposite arguments. */
  ghost predicate HypotLaws(hypot: (real, real) -> real)
  {
    hypot(0.0, 0.0) == 0.0 && forall a, b :: hypot(-a, -b) == hypot(a, b)
  }

  /** `abs(hypot(p1.x - p2.x, p1.y - p2.y))`. */
  function Distance(hypot: (real, real) -> real, p1: Point, p2: Point): real
  {
    Abs(hypot(p1.x - p2.x, p1.y - p2.y))
  }

  /** `beginDisplayUpdates`: invalidate the current link, if any, then create
      and register a new one. */
  function LinkStarted(s: ItemState): ItemState
  {
    var remaining := if s.linked && s.liveLinks > 0 then s.liveLinks - 1 else s.liveLinks;
    s.(linked := true, liveLinks := remaining + 1)
  }

  /** `endDisplayUpdates`: invalidate the current link, if any, and clear the field. */
  function LinkStopped(s: ItemState): ItemState
  {
    var remaining := if s.linked && s.liveLinks > 0 then s.liveLinks - 1 else s.liveLinks;
    s.(linked := false, liveLinks := remaining)
  }

  /** `updateWithGesture`. */
  function OnGesture(s: ItemState, phase: Phase, location: Point, canDrop: bool): ItemState
  {
    match phase
    case Began =>
      // animatePickup: the transit view joins the shared superview and moves to the touch
      s.(originCenter := s.transitCenter, touchLocation := location,
         inSuperview := true, transitCenter := location, pending := s.pending + [Pickup])
    case Changed =>
      s.(touchLocation := location)
    case Ended =>
      var t := LinkStopped(s);
      if !t.hasDelegate then t
      else if canDrop then
        t.(transitCenter := Point(t.transitCenter.x + t.dropOffset.x, t.transitCenter.y + t.dropOffset.y),
           pending := t.pending + [Drop])
      else
        t.(transitCenter := t.originCenter, pending := t.pending + [Cancel])
    case Other => s
  }

  /** The completion of the animation at `index`: the pickup starts the display
      updates; a drop or a cancel removes the transit view, marks the item
      completed and reports the outcome to the delegate. */
  function OnComplete(s: ItemState, index: nat): ItemState
  {
    if index >= |s.pending| then s
    else
      var rest := s.pending[..index] + s.pending[index + 1..];
      match s.pending[index]
      case Pickup => LinkStarted(s.(pending := rest))
      case Drop => s.(pending := rest, inSuperview := false, isCompleted := true,
                      notices := s.notices + [DidDrop(true)])
      case Cancel => s.(pending := rest, inSuperview := false, isCompleted := true,
                        notices := s.notices + [DidDrop(false)])
  }

  /** `1000 / duration / 1000`: ticks per second for a tick lasting `duration` seconds. */
  function FrameRate(duration: real): real
    requires duration > 0.0
  {
    1000.0 / duration / 1000.0
  }

  /** `updateDisplay` for a tick lasting `duration`. */
  function OnTick(s: ItemState, duration: real, hypot: (real, real) -> real): ItemState
    requires duration > 0.0
  {
    var frameRate := FrameRate(duration);
    var velocity := Distance(hypot, s.previousTouchLocation, s.touchLocation) * frameRate;
    s.(frameRate := frameRate, transitCenter := s.touchLocation, touchVelocity := velocity,
       previousTouchLocation := s.touchLocation,
       notices := if s.hasDelegate then s.notices + [ActiveDragUpdate] else s.notices)
  }

  /** One event; a tick arrives only while a display link is set. */
  function Apply(s: ItemState, e: Event, hypot: (real, real) -> real): ItemState
  {
    match e
    case Gesture(phase, location, canDrop) => OnGesture(s, phase, location, canDrop)
    case Finish(index) => OnComplete(s, index)
    case Tick(duration) => if s.linked && duration > 0.0 then OnTick(s, duration, hypot) else s
  }

  /** A sequence of events, in order. */
  function Run(s: ItemState, events: seq<Event>, hypot: (real, real) -> real): ItemState
    decreases |events|
  {
    if |events| == 0 then s else Run(Apply(s, events[0], hypot), events[1..], hypot)
  }

  // ---------------------------------------------------------------------------
  // Properties

  lemma DistanceNonNegative(hypot: (real, real) -> real, p1: Point, p2: Point)
    ensures Distance(hypot, p1, p2) >= 0.0
  {
  }

  lemma DistanceToSelf(hypot: (real, real) -> real, p: Point)
    requires HypotLaws(hypot)
    ensures Distance(hypot, p, p) == 0.0
  {
    assert p.x - p.x == 0.0 && p.y - p.y == 0.0;
  }

  lemma DistanceSymmetric(hypot: (real, real) -> real, p1: Point, p2: Point)
    requires HypotLaws(hypot)
    ensures Distance(hypot, p1, p2) == Distance(hypot, p2, p1)
  {
    var a, b := p2.x - p1.x, p2.y - p1.y;
    assert hypot(-a, -b) == hypot(a, b);
    assert p1.x - p2.x == -a && p1.y - p2.y == -b;
  }

  /** On `began` the origin is the centre before the lift, the touch is the
      gesture location, the transit view joins the shared superview, and only
      the pickup's completion will start the display updates. */
  lemma BeganLifts(s: ItemState, location: Point, canDrop: bool)
    ensures var t := OnGesture(s, Began, location, canDrop);
      && t.originCenter == s.transitCenter && t.touchLocation == location
      && t.transitCenter == location && t.inSuperview
      && t.linked == s.linked && t.liveLinks == s.liveLinks
      && t.pending == s.pending + [Pickup] && t.notices == s.notices
  {
  }

  /** On `changed` only the touch location moves. */
  lemma ChangedMovesTouchOnly(s: ItemState, location: Point, canDrop: bool)
    ensures OnGesture(s, Changed, location, canDrop) == s.(touchLocation := location)
  {
  }

  /** On `ended` the display link is gone before the delegate is asked; with
      a delegate exactly one drop or cancel animation starts, towards the current
      centre plus the drop offset or back to the origin; without one nothing
      else happens. */
  lemma EndedStopsTicks(s: ItemState, location: Point, canDrop: bool)
    requires SingleLink(s)
    ensures var t := OnGesture(s, Ended, location, canDrop);
      && !t.linked && t.liveLinks == 0
      && t.isCompleted == s.isCompleted && t.notices == s.notices && t.inSuperview == s.inSuperview
      && (s.hasDelegate && canDrop ==>
            t.pending == s.pending + [Drop] &&
            t.transitCenter == Point(s.transitCenter.x + s.dropOffset.x, s.transitCenter.y + s.dropOffset.y))
      && (s.hasDelegate && !canDrop ==> t.pending == s.pending + [Cancel] && t.transitCenter == s.originCenter)
      && (!s.hasDelegate ==> t.pending == s.pending && t.transitCenter == s.transitCenter)
  {
  }

  /** With a delegate, an `ended` followed by its animation's completion makes
      exactly one `ddItemDidDrop`, with `success` the delegate's answer, and marks
      the item completed in the same completion. */
  lemma EndedReportsOnce(s: ItemState, location: Point, canDrop: bool)
    requires s.hasDelegate
    ensures var t := OnGesture(s, Ended, location, canDrop);
      var u := OnComplete(t, |t.pending| - 1);
      && t.isCompleted == s.isCompleted && t.notices == s.notices
      && u.notices == s.notices + [DidDrop(canDrop)]
      && u.isCompleted && !u.inSuperview && u.pending == s.pending
  {
    var t := OnGesture(s, Ended, location, canDrop);
    assert t.pending[..|t.pending| - 1] == s.pending;
  }

  /** A pickup animation still in flight when the gesture ends restarts the
      display updates once it completes: the ordering lets a tick source
      outlive the drag. */
  lemma PickupAfterEndedRestarts(s: ItemState, location: Point, canDrop: bool, i: nat)
    requires i < |s.pending| && s.pending[i] == Pickup
    ensures var t := OnGesture(s, Ended, location, canDrop);
      !t.linked && i < |t.pending| && OnComplete(t, i).linked
  {
  }

  /** Every event keeps at most one display link running. */
  lemma ApplyKeepsSingleLink(s: ItemState, e: Event, hypot: (real, real) -> real)
    requires SingleLink(s)
    ensures SingleLink(Apply(s, e, hypot))
  {
  }

  lemma {:induction false} RunKeepsSingleLink(s: ItemState, events: seq<Event>, hypot: (real, real) -> real)
    requires SingleLink(s)
    ensures SingleLink(Run(s, events, hypot))
    decreases |events|
  {
    if |events| > 0 {
      ApplyKeepsSingleLink(s, events[0], hypot);
      RunKeepsSingleLink(Apply(s, events[0], hypot), events[1..], hypot);
    }
  }

  /** Only pickups are in flight. */
  predicate OnlyPickups(s: ItemState)
  {
    forall i :: 0 <= i < |s.pending| ==> s.pending[i] == Pickup
  }

  /** Without a delegate no event ever completes the item or reaches a delegate,
      and the transit view, once in the shared superview, stays there. */
  lemma {:induction false} NoDelegateNeverCompletes(s: ItemState, events: seq<Event>, hypot: (real, real) -> real)
    requires !s.hasDelegate && OnlyPickups(s)
    ensures var t := Run(s, events, hypot);
      && t.isCompleted == s.isCompleted && t.notices == s.notices
      && (s.inSuperview ==> t.inSuperview)
    decreases |events|
  {
    if |events| > 0 {
      ApplyNoDelegate(s, events[0], hypot);
      NoDelegateNeverCompletes(Apply(s, events[0], hypot), events[1..], hypot);
    }
  }

  /** One event without a delegate: no completion, no delegate call, and still
      only pickups in flight. */
  lemma ApplyNoDelegate(s: ItemState, e: Event, hypot: (real, real) -> real)
    requires !s.hasDelegate && OnlyPickups(s)
    ensures var t := Apply(s, e, hypot);
      && !t.hasDelegate && OnlyPickups(t)
      && t.isCompleted == s.isCompleted && t.notices == s.notices
      && (s.inSuperview ==> t.inSuperview)
  {
    if e.Finish? && e.index < |s.pending| {
      var i := e.index;
      var rest := s.pending[..i] + s.pending[i + 1..];
      assert forall j :: 0 <= j < |rest| ==> rest[j] == s.pending[if j < i then j else j + 1];
    }
  }

  /** A tick sets the frame rate to one over the tick's duration and moves the
      transit view to the touch. */
  lemma TickRate(s: ItemState, duration: real, hypot: (real, real) -> real)
    requires duration > 0.0
    ensures OnTick(s, duration, hypot).frameRate * duration == 1.0
    ensures OnTick(s, duration, hypot).transitCenter == s.touchLocation
    ensures OnTick(s, duration, hypot).previousTouchLocation == s.touchLocation
  {
  }

  /** A second tick with no touch movement in between reports velocity 0. */
  lemma SecondTickIsStill(s: ItemState, d1: real, d2: real, hypot: (real, real) -> real)
    requires d1 > 0.0 && d2 > 0.0 && HypotLaws(hypot)
    ensures OnTick(OnTick(s, d1, hypot), d2, hypot).touchVelocity == 0.0
  {
    DistanceToSelf(hypot, s.touchLocation);
  }

  // ---------------------------------------------------------------------------
  // The item object

  class Item {
    var transitCenter: Point
    var inSuperview: bool
    var hasDelegate: bool
    var originCenter: Point
    var previousTouchLocation: Point
    var touchLocation: Point
    var touchVelocity: real
    var frameRate: real
    var dropOffset: Point
    var isCompleted: bool
    var linked: bool
    var liveLinks: nat
    var pending: seq<Animation>
    var notices: seq<Notice>

    function State(): ItemState
      reads this
    {
      ItemState(transitCenter, inSuperview, hasDelegate, originCenter, previousTouchLocation,
                touchLocation, touchVelocity, frameRate, dropOffset, isCompleted, linked, liveLinks,
                pending, notices)
    }

    ghost predicate Valid()
      reads this
    {
      SingleLink(State())
    }

    /** `init(transitView:sharedSuperview:delegate:payload:)`, given the transit
        view's centre and whether a delegate is set. */
    constructor (center: Point, inShared: bool, withDelegate: bool)
      ensures Valid()
      ensures State() == ItemState(center, inShared, withDelegate, Origin, Origin, Origin, 0.0, 0.0, Origin,
                                   false, false, 0, [], [])
    {
      transitCenter, inSuperview, hasDelegate := center, inShared, withDelegate;
      originCenter, previousTouchLocation, touchLocation := Origin, Origin, Origin;
      touchVelocity, frameRate, dropOffset := 0.0, 0.0, Origin;
      isCompleted, linked, liveLinks := false, false, 0;
      pending, notices := [], [];
    }

    /** `updateWithGesture`: `location` is the gesture's location in the shared
        superview, `canDrop` the delegate's answer when it is asked. */
    method UpdateWithGesture(phase: Phase, location: Point, canDrop: bool)
      requires Valid()
      modifies this
      ensures Valid()
      ensures State() == OnGesture(old(State()), phase, location, canDrop)
    {
      match phase
      case Began =>
        originCenter := transitCenter;
        touchLocation := location;
        AnimatePickup();
      case Changed =>
        touchLocation := location;
      case Ended =>
        EndDisplayUpdates();
        if hasDelegate {
          if canDrop {
            AnimateDrop();
          } else {
            AnimateCancel();
          }
        }
      case Other =>
    }

    method AnimatePickup()
      modifies this
      ensures State() == old(State()).(inSuperview := true, transitCenter := old(touchLocation),
                                       pending := old(pending) + [Pickup])
    {
      inSuperview := true;
      transitCenter := touchLocation;
      pending := pending + [Pickup];
    }

    method AnimateDrop()
      modifies this
      ensures State() == old(State()).(transitCenter := Point(old(transitCenter).x + old(dropOffset).x,
                                                              old(transitCenter).y + old(dropOffset).y),
                                       pending := old(pending) + [Drop])
    {
      var center := Point(transitCenter.x + dropOffset.x, transitCenter.y + dropOffset.y);
      transitCenter := center;
      pending := pending + [Drop];
    }

    method AnimateCancel()
      modifies this
      ensures State() == old(State()).(transitCenter := old(originCenter), pending := old(pending) + [Cancel])
    {
      transitCenter := originCenter;
      pending := pending + [Cancel];
    }

    /** The completion of the animation at `index` among those in flight. */
    method Complete(index: nat)
      requires Valid()
      modifies this
      ensures Valid()
      ensures State() == OnComplete(old(State()), index)
    {
      if index < |pending| {
        var animation := pending[index];
        pending := pending[..index] + pending[index + 1..];
        match animation
        case Pickup =>
          BeginDisplayUpdates();
        case Drop =>
          inSuperview := false;
          isCompleted := true;
          notices := notices + [DidDrop(true)];
        case Cancel =>
          inSuperview := false;
          isCompleted := true;
          notices := notices + [DidDrop(false)];
      }
    }

    method BeginDisplayUpdates()
      modifies this
      ensures State() == LinkStarted(old(State()))
    {
      if linked && liveLinks > 0 {
        liveLinks := liveLinks - 1;
      }
      liveLinks := liveLinks + 1;
      linked := true;
    }

    method EndDisplayUpdates()
      modifies this
      ensures State() == LinkStopped(old(State()))
    {
      if linked && liveLinks > 0 {
        liveLinks := liveLinks - 1;
      }
      linked := false;
    }

    /** `updateDisplay`, called by the display link with the tick's duration. */
    method UpdateDisplay(duration: real, hypot: (real, real) -> real)
      requires Valid() && duration > 0.0
      modifies this
      ensures Valid()
      ensures State() == OnTick(old(State()), duration, hypot)
    {
      var rate := FrameRate(duration);
      var velocity := Distance(hypot, previousTouchLocation, touchLocation) * rate;
      frameRate, transitCenter, touchVelocity := rate, touchLocation, velocity;
      previousTouchLocation := touchLocation;
      if hasDelegate {
        notices := notices + [ActiveDragUpdate];
      }
    }
  }
}
