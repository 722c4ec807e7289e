/**
 * `InfiniteScrollManager`: the content-offset handler that asks for the
 * next page once the user scrolls 50 points beyond the end of the content
 * (an overscroll past the bottom-most resting offset), and the loading flag
 * that keeps it from asking twice.
 */
module InfiniteScroll {

  /** `threshold`. */
  const Threshold: real := 50.0

  /** The offset at or past which the handler fires: `contentHeight + bottomInset - scrollViewHeight + threshold`. */
  function BottomOffsetThreshold(viewHeight: real, contentHeight: real, bottomInset: real): real {
    contentHeight + bottomInset - viewHeight + Threshold
  }

  /** One observed event: a new content offset, `reset()` or `disableInfiniteScroll()`. */
  datatype ScrollEvent =
    | Offset(y: real, viewHeight: real, contentHeight: real, bottomInset: real)
    | Reset
    | Disable

  /** The loading flag after an event, and whether the action ran. */
  datatype Step = Step(isLoadingMore: bool, fired: bool)

  /** What the manager does on one event, starting from `isLoadingMore`. */
  function Next(isLoadingMore: bool, e: ScrollEvent): (s: Step)
    ensures s.fired ==> e.Offset? && !isLoadingMore && s.isLoadingMore
    ensures (e.Offset? && e.y < BottomOffsetThreshold(e.viewHeight, e.contentHeight, e.bottomInset))
      ==> s == Step(isLoadingMore, false)
  {
    match e
    case Offset(y, viewHeight, contentHeight, bottomInset) =>
      if y >= BottomOffsetThreshold(viewHeight, contentHeight, bottomInset) && !isLoadingMore then Step(true, true)
      else Step(isLoadingMore, false)
    case Reset => Step(false, false)
    case Disable => Step(true, false)
  }

  /** The flag after a run of events. */
  function Run(isLoadingMore: bool, events: seq<ScrollEvent>): bool
    decreases |events|
  {
    if events == [] then isLoadingMore
    else Run(Next(isLoadingMore, events[0]).isLoadingMore, events[1..])
  }

  /** How often the action ran during a run of events. */
  function Fires(isLoadingMore: bool, events: seq<ScrollEvent>): (n: nat)
    ensures n <= |events|
    decreases |events|
  {
    if events == [] then 0
    else
      var s := Next(isLoadingMore, events[0]);
      (if s.fired then 1 else 0) + Fires(s.isLoadingMore, events[1..])
  }

  /** Events between two resets: offsets and disables only. */
  predicate NoReset(events: seq<ScrollEvent>) {
    forall i :: 0 <= i < |events| ==> !events[i].Reset?
  }

  /**
   * Between resets the action runs at most once, never when it starts out
   * loading, and when it ran the flag stays set.
   */
  lemma {:induction false} AtMostOneFireBetweenResets(isLoadingMore: bool, events: seq<ScrollEvent>)
    requires NoReset(events)
    ensures Fires(isLoadingMore, events) <= 1
    ensures isLoadingMore ==> Fires(isLoadingMore, events) == 0 && Run(isLoadingMore, events)
    ensures Fires(isLoadingMore, events) == 1 ==> Run(isLoadingMore, events)
    decreases |events|
  {
    if events != [] {
      var s := Next(isLoadingMore, events[0]);
      assert NoReset(events[1..]) by {
        forall i | 0 <= i < |events| - 1
          ensures !events[1..][i].Reset?
        {
          assert events[1..][i] == events[i + 1];
        }
      }
      AtMostOneFireBetweenResets(s.isLoadingMore, events[1..]);
    }
  }

  /** After `disableInfiniteScroll()` nothing fires until the next reset. */
  lemma DisabledNeverFires(isLoadingMore: bool, events: seq<ScrollEvent>)
    requires NoReset(events)
    ensures Fires(Next(isLoadingMore, Disable).isLoadingMore, events) == 0
  {
    AtMostOneFireBetweenResets(true, events);
  }

  /** After `reset()` the next offset past the threshold fires. */
  lemma ResetRearms(isLoadingMore: bool, y: real, viewHeight: real, contentHeight: real, bottomInset: real)
    requires y >= BottomOffsetThreshold(viewHeight, contentHeight, bottomInset)
    ensures Next(Next(isLoadingMore, Reset).isLoadingMore, Offset(y, viewHeight, contentHeight, bottomInset)).fired
  {
  }

  /** The manager: one mutable flag. */
  class InfiniteScrollManager {
    var isLoadingMore: bool

    constructor()
      ensures !isLoadingMore
    {
      isLoadingMore := false;
    }

    /**
     * The `contentOffset` subscriber: fires, and sets the flag, when the
     * offset reaches the threshold while not loading; otherwise nothing
     * changes.  `fire` stands for calling `action()`.
     */
    method OnContentOffset(y: real, viewHeight: real, contentHeight: real, bottomInset: real) returns (fire: bool)
      modifies this
      ensures Step(isLoadingMore, fire) == Next(old(isLoadingMore), Offset(y, viewHeight, contentHeight, bottomInset))
      ensures fire <==> y >= BottomOffsetThreshold(viewHeight, contentHeight, bottomInset) && !old(isLoadingMore)
    {
      var bottomOffsetThreshold := contentHeight + bottomInset - viewHeight + Threshold;
      fire := false;
      if y >= bottomOffsetThreshold && !isLoadingMore {
        isLoadingMore := true;
        fire := true;
      }
    }

    /** `reset()`. */
    method ResetLoading()
      modifies this
      ensures isLoadingMore == Next(old(isLoadingMore), Reset).isLoadingMore
      ensures !isLoadingMore
    {
      isLoadingMore := false;
    }

    /** `disableInfiniteScroll()`. */
    method DisableInfiniteScroll()
      modifies this
      ensures isLoadingMore == Next(old(isLoadingMore), Disable).isLoadingMore
      ensures isLoadingMore
    {
      isLoadingMore := true;
    }
  }
}
