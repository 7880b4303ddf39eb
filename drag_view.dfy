/** The plain host view (DDView): it starts a drag when the long press begins and
    its delegate approves, forwards every gesture phase to the active item and lets
    go of the item when the gesture ends. Also the walk that finds the shared
    superview in which an item travels. */
module DragView {
  import opened Geometry
  import opened DragItem

  /** A view as far as the walk sees it: whether its dynamic type is exactly the
      plain view class, and its superview. A datatype value, so every chain of
      superviews is finite and without cycles. */
  datatype View = View(plain: bool, superview: Option<View>)

  /** `rootSuperviewFor`: climb while the superview is a plain view. */
  function RootSuperviewFor(v: View): View
    decreases v
  {
    match v.superview
    case Some(s) => if s.plain then RootSuperviewFor(s) else v
    case None => v
  }

  /** The view followed by its superviews, nearest first. */
  function Chain(v: View): seq<View>
    decreases v
  {
    match v.superview
    case None => [v]
    case Some(s) => [v] + Chain(s)
  }

  /** The walk stops at `v` itself when `v` has no superview or the superview is
      not a plain view; otherwise it reaches an ancestor of `v`, every view passed
      from `v`'s superview up to the result is plain, and the result's own
      superview is absent or not plain. */
  lemma {:induction false} RootIsAncestor(v: View)
    ensures var r := RootSuperviewFor(v);
      && ((v.superview.None? || !v.superview.value.plain) ==> r == v)
      && (exists i :: 0 <= i < |Chain(v)| && Chain(v)[i] == r &&
                      forall j :: 0 < j <= i ==> Chain(v)[j].plain)
      && (r.superview.None? || !r.superview.value.plain)
    decreases v
  {
    var r := RootSuperviewFor(v);
    match v.superview
    case None =>
      assert Chain(v)[0] == r;
    case Some(s) =>
      if s.plain {
        RootIsAncestor(s);
        var i :| 0 <= i < |Chain(s)| && Chain(s)[i] == r && forall j :: 0 < j <= i ==> Chain(s)[j].plain;
        assert Chain(v) == [v] + Chain(s);
        assert Chain(v)[i + 1] == r;
        assert Chain(s)[0] == s;
        forall j | 0 < j <= i + 1
          ensures Chain(v)[j].plain
        {
          assert Chain(v)[j] == Chain(s)[j - 1];
        }
      } else {
        assert Chain(v)[0] == r;
      }
  }

  /** The walk from the result goes nowhere: applying it twice is applying it once. */
  lemma {:induction false} RootIsFixed(v: View)
    ensures RootSuperviewFor(RootSuperviewFor(v)) == RootSuperviewFor(v)
    decreases v
  {
    match v.superview
    case None =>
    case Some(s) =>
      if s.plain {
        RootIsFixed(s);
      }
  }

  /** The item `beginPossibleDragAndDrop` offers to keep: none unless the host
      has a delegate, a snapshot of the host was made and the delegate's
      `ddItemCanDrag` approves; otherwise a fresh item whose transit view sits at
      the host's centre in the shared superview (the origin when the host has no
      superview to convert from), with the host's delegate. */
  function Offer(hasDelegate: bool, snapshot: bool, canDrag: bool, center: Option<Point>): Option<ItemState>
  {
    if hasDelegate && snapshot && canDrag then
      Some(NewItem(if center.Some? then center.value else Origin))
    else None
  }

  /** A freshly initialised item with a delegate, its transit view at `center`
      and not yet in a superview. */
  function NewItem(center: Point): ItemState
  {
    ItemState(center, false, true, Origin, Origin, Origin, 0.0, 0.0, Origin, false, false, 0, [], [])
  }

  /** The host after one gesture update, as values: the item that received the
      phase (the offered item on an approved `began`, otherwise the active one)
      with its new state, and the item the host then keeps. */
  function Dispatch(active: Option<ItemState>, phase: Phase, location: Point, canDrop: bool,
                    offer: Option<ItemState>): (Option<ItemState>, Option<ItemState>)
  {
    var target := if phase == Began && offer.Some? then offer else active;
    var forwarded := if target.Some? then Some(OnGesture(target.value, phase, location, canDrop)) else None;
    (forwarded, if phase == Ended then None else forwarded)
  }

  /** After `ended` the host keeps no item; an approved `began` gives the fresh
      item that same `began`; otherwise the active item, if any, gets the phase
      and stays unless the phase is `ended`. */
  lemma DispatchFacts(active: Option<ItemState>, phase: Phase, location: Point, canDrop: bool,
                      offer: Option<ItemState>)
    ensures var (forwarded, kept) := Dispatch(active, phase, location, canDrop, offer);
      && (phase == Ended ==> kept.None?)
      && (phase != Ended ==> kept == forwarded)
      && (phase == Began && offer.Some? ==> forwarded == Some(OnGesture(offer.value, Began, location, canDrop)))
      && (!(phase == Began && offer.Some?) ==>
            (forwarded.Some? <==> active.Some?) &&
            (active.Some? ==> forwarded.value == OnGesture(active.value, phase, location, canDrop)))
  {
  }

  /** A drag started on an approved `began` with no item active: the host keeps
      the lifted item, whose origin is the host's centre, and its display link
      runs, alone, only once the pickup completes. */
  lemma ApprovedDragLifts(center: Point, location: Point, canDrop: bool)
    ensures var (forwarded, kept) := Dispatch(None, Began, location, canDrop, Some(NewItem(center)));
      && kept == forwarded && forwarded.Some?
      && forwarded.value.originCenter == center && forwarded.value.pending == [Pickup]
      && !forwarded.value.linked
      && OnComplete(forwarded.value, 0).linked && SingleLink(OnComplete(forwarded.value, 0))
  {
  }

  /** The host view. */
  class Host {
    var hasDelegate: bool
    var activeItem: Item?

    ghost predicate Valid()
      reads this, if activeItem != null then {activeItem} else {}
    {
      activeItem != null ==> activeItem.Valid()
    }

    constructor (withDelegate: bool)
      ensures Valid() && hasDelegate == withDelegate && activeItem == null
    {
      hasDelegate := withDelegate;
      activeItem := null;
    }

    /** `gestureUpdate`: `location` is the touch in the shared superview,
        `canDrop` the delegate's drop answer, and `snapshot`, `center` and
        `canDrag` what a `began` finds (see `BeginPossibleDragAndDrop`). The
        item that received the phase is returned. */
    method GestureUpdate(phase: Phase, location: Point, canDrop: bool,
                         snapshot: bool, center: Option<Point>, canDrag: bool)
      returns (forwarded: Item?)
      requires Valid()
      modifies this, if activeItem != null then {activeItem} else {}
      ensures Valid() && hasDelegate == old(hasDelegate)
      ensures activeItem == if phase == Ended then null else forwarded
      ensures var offer := Offer(hasDelegate, snapshot, canDrag, center);
        && (phase == Began && offer.Some? ==>
              forwarded != null && fresh(forwarded) &&
              forwarded.State() == OnGesture(offer.value, Began, location, canDrop))
        && (!(phase == Began && offer.Some?) ==> forwarded == old(activeItem))
        && (!(phase == Began && offer.Some?) && old(activeItem) != null ==>
              forwarded.State() == OnGesture(old(activeItem.State()), phase, location, canDrop))
        && (phase == Began && offer.Some? && old(activeItem) != null ==>
              old(activeItem).State() == old(activeItem.State()))
    {
      if phase == Began {
        BeginPossibleDragAndDrop(snapshot, center, canDrag);
      }
      forwarded := activeItem;
      if activeItem != null {
        activeItem.UpdateWithGesture(phase, location, canDrop);
      }
      if phase == Ended {
        activeItem := null;
      }
    }

    /** `beginPossibleDragAndDrop`: `snapshot` says the host's snapshot view was
        made, `center` is the host's centre converted into the shared superview
        (none when the host has no superview), and `canDrag` is the delegate's
        `ddItemCanDrag` answer for the new item. */
    method BeginPossibleDragAndDrop(snapshot: bool, center: Option<Point>, canDrag: bool)
      requires Valid()
      modifies this
      ensures Valid() && hasDelegate == old(hasDelegate)
      ensures var offer := Offer(hasDelegate, snapshot, canDrag, center);
        && (offer.Some? ==> activeItem != null && fresh(activeItem) && activeItem.State() == offer.value)
        && (offer.None? ==> activeItem == old(activeItem))
    {
      if hasDelegate && snapshot {
        var transitCenter := if center.Some? then center.value else Origin;
        var item := new Item(transitCenter, false, true);
        if canDrag {
          activeItem := item;
        }
      }
    }
  }
}
