/**
 * The circular layout manager: items sit on an arc, item i at angle
 * i * IntervalAngle; a single offset turns the whole arc; an item has an
 * attached view while its angle minus the offset lies in the window.
 *
 * The host list framework is not modelled; what the layout manager does to it
 * is. Its list of attached views is the field `children`. Fetching, measuring
 * and adding a view become building a `Child`. Laying it out and rotating it
 * record in the `Child` the anchor and size it was laid out with and its
 * rotation; `Bounds` gives the rectangle that `layoutDecorated` receives and
 * `Child.Scale` the scale it is drawn at. Removing and recycling a view
 * deletes it from `children`. The host's item count, its
 * pre-layout flag, its width and the measured size of an item are parameters.
 */
module LayoutManager {
  import opened Angles
  import opened ChildList
  import opened ChildPasses

  datatype Option<T> = None | Some(value: T)

  /** A direction vector handed to the host's smooth scroller. */
  datatype PointF = PointF(x: real, y: real)

  /** The rectangle a view is laid out in. */
  datatype Rect = Rect(left: int, top: int, right: int, bottom: int)

  /** Java's `a / 2` on int: the quotient rounded toward zero. */
  function HalfTowardZero(a: int): (h: int)
    ensures Abs(2 * h) <= Abs(a) < Abs(2 * h) + 2
    ensures a >= 0 ==> h >= 0
    ensures a <= 0 ==> h <= 0
  {
    if a >= 0 then a / 2 else -((-a) / 2)
  }

  class CustomLayoutManager {
    const radius: int
    /** Horizontal and vertical displacement on a circle of the given radius
        at the given angle; the trigonometry of the source is not modelled. */
    const circleLeft: (int, int) -> int
    const circleTop: (int, int) -> int

    /** Current rotation of the arc. */
    var offsetRotate: int
    /** Anchor of the item at the front: centred horizontally, at the top. */
    var startLeft: int
    var startTop: int
    /** Decorated size of an item; every item has the same size. */
    var childWidth: int
    var childHeight: int
    /** itemAttached[p]: a view for item p is attached. */
    var itemAttached: map<int, bool>
    /** itemsRotate[p]: the angle assigned to item p. */
    var itemsRotate: map<int, int>
    /** The host's attached views, in the host's child order. */
    var children: seq<Child>

    /** The placement parameters as they stand. */
    function Geo(): Geometry
      reads this`startLeft, this`startTop, this`childWidth, this`childHeight
    {
      Geometry(startLeft, startTop, childWidth, childHeight)
    }

    /** `calLeftPosition`: horizontal displacement on the arc at angle `rotate`. */
    function CalLeftPosition(rotate: int): int
    {
      circleLeft(radius, rotate)
    }

    /** `calTopPosition`: vertical displacement on the arc at angle `rotate`. */
    function CalTopPosition(rotate: int): int
    {
      circleTop(radius, rotate)
    }

    /** The rectangle handed to `layoutDecorated` for a view: its anchor moved
        by the arc displacement at its rotation, extended by its size. */
    function Bounds(c: Child): Rect
    {
      var left := CalLeftPosition(c.rotation);
      var top := CalTopPosition(c.rotation);
      Rect(c.anchorLeft + left, c.anchorTop + top, c.anchorLeft + left + c.width, c.anchorTop + top + c.height)
    }

    /** While the views are aligned, each one's rectangle is the one for its
        item's angle minus the offset: the front anchor moved by the arc
        displacement at that angle, at the measured item size. */
    lemma ViewBoundsFollowAngles()
      requires Valid() && Aligned()
      ensures forall c :: c in children ==>
        var a := itemsRotate[c.position] - offsetRotate;
        Bounds(c) == Rect(startLeft + CalLeftPosition(a), startTop + CalTopPosition(a),
                          startLeft + CalLeftPosition(a) + childWidth, startTop + CalTopPosition(a) + childHeight)
    {
    }

    /** Bookkeeping that every operation keeps: no item has two views, each
        view's item has an angle and is flagged attached, and each view's
        bounds and scale are those of its rotation. */
    ghost predicate Valid()
      reads this`children, this`itemAttached, this`itemsRotate
      reads this`startLeft, this`startTop, this`childWidth, this`childHeight
    {
      Bookkept(itemsRotate, itemAttached, children) && Placed(Geo(), children)
    }

    /** Every view's rotation is its item's angle minus the offset. */
    ghost predicate Aligned()
      reads this`children, this`itemsRotate, this`offsetRotate
    {
      AlignedTo(itemsRotate, offsetRotate, children)
    }

    /** Every item below n has an assigned angle. */
    ghost predicate Covers(n: int)
      reads this`itemsRotate
    {
      forall i :: 0 <= i < n ==> i in itemsRotate
    }

    /** Every item below n that is flagged attached has a view. */
    ghost predicate Synced(n: int)
      reads this`children, this`itemAttached
    {
      SyncedBelow(itemAttached, children, n)
    }

    /** Every view shows an item that is inside the window. */
    ghost predicate AllShown()
      reads this`children, this`itemsRotate, this`offsetRotate
    {
      AllShownIn(itemsRotate, offsetRotate, children)
    }

    constructor (radius: int, circleLeft: (int, int) -> int, circleTop: (int, int) -> int)
      ensures this.radius == radius && this.circleLeft == circleLeft && this.circleTop == circleTop
      ensures offsetRotate == 0 && itemAttached == map[] && itemsRotate == map[] && children == []
      ensures Valid() && Aligned()
    {
      this.radius := radius;
      this.circleLeft := circleLeft;
      this.circleTop := circleTop;
      offsetRotate := 0;
      itemAttached := map[];
      itemsRotate := map[];
      children := [];
    }

    /** The argument-less constructor: the default radius. */
    constructor Default(circleLeft: (int, int) -> int, circleTop: (int, int) -> int)
      ensures radius == DefaultRadius && this.circleLeft == circleLeft && this.circleTop == circleTop
      ensures offsetRotate == 0 && itemAttached == map[] && itemsRotate == map[] && children == []
      ensures Valid() && Aligned()
    {
      radius := DefaultRadius;
      this.circleLeft := circleLeft;
      this.circleTop := circleTop;
      offsetRotate := 0;
      itemAttached := map[];
      itemsRotate := map[];
      children := [];
    }

    /**
     * Direction hint for the smooth scroller: none without views; otherwise
     * -1 when the target comes before the first view's item, +1 when not.
     */
    function ComputeScrollVectorForPosition(targetPosition: int): (v: Option<PointF>)
      reads this`children
      ensures v.None? <==> children == []
      ensures v.Some? ==> v.value.y == 0.0 && (v.value.x == -1.0 || v.value.x == 1.0)
      ensures v.Some? ==> (v.value.x < 0.0 <==> targetPosition < children[0].position)
    {
      if |children| == 0 then None
      else
        var firstChildPos := children[0].position;
        var direction := if targetPosition < firstChildPos then -1.0 else 1.0;
        Some(PointF(direction, 0.0))
    }

    /** Brings the offset back into [0, MaxOffsetDegree(itemCount)]. */
    method FixRotateOffset(itemCount: int)
      modifies this`offsetRotate
      ensures offsetRotate == FixedOffset(old(offsetRotate), MaxOffsetDegree(itemCount))
      ensures itemCount >= 1 ==> 0 <= offsetRotate <= MaxOffsetDegree(itemCount)
    {
      if offsetRotate < 0 {
        offsetRotate := 0;
      }
      if offsetRotate > MaxOffsetDegree(itemCount) {
        offsetRotate := MaxOffsetDegree(itemCount);
      }
    }

    /**
     * `layoutItems`: unless this is a pre-layout pass, removes the views whose
     * item left the window, then attaches views for the items that entered it.
     */
    method LayoutItems(n: int, preLayout: bool, direction: Direction)
      requires Valid()
      requires !preLayout ==> Covers(n)
      modifies this`children, this`itemAttached
      ensures Valid()
      ensures preLayout ==> children == old(children) && itemAttached == old(itemAttached)
      ensures !preLayout ==> children == Joined(Geo(), itemsRotate, offsetRotate,
        Kept(itemsRotate, offsetRotate, old(children)), Pending(itemsRotate, old(itemAttached), offsetRotate, n), direction)
      ensures !preLayout ==> AllShown()
      ensures !preLayout ==> forall p :: Flag(itemAttached, p) <==>
        || (0 <= p < n && Shown(itemsRotate, offsetRotate, p))
        || (Flag(old(itemAttached), p) && (p !in Positions(old(children)) || Shown(itemsRotate, offsetRotate, p)))
      ensures !preLayout && old(Synced(n)) ==>
        && Synced(n)
        && forall p :: 0 <= p < n ==>
             && (Flag(itemAttached, p) <==> Shown(itemsRotate, offsetRotate, p))
             && (p in Positions(children) <==> Shown(itemsRotate, offsetRotate, p))
      ensures old(Aligned()) ==> Aligned()
    {
      if preLayout {
        return;
      }
      children, itemAttached := LayoutPass(Geo(), itemsRotate, offsetRotate, itemAttached, children, n, direction);
    }

    /**
     * `layoutItems` with its removal loop as written (see SweepAsWritten):
     * no shown view is removed, but a hidden view that follows a removed one
     * stays attached, and so does its item's flag.
     */
    method LayoutItemsAsWritten(n: int, preLayout: bool, direction: Direction)
      requires Valid()
      requires !preLayout ==> Covers(n)
      modifies this`children, this`itemAttached
      ensures Valid()
      ensures preLayout ==> children == old(children) && itemAttached == old(itemAttached)
      ensures !preLayout ==> children == Joined(Geo(), itemsRotate, offsetRotate,
        SweepAsWritten(itemsRotate, offsetRotate, old(children)), Pending(itemsRotate, old(itemAttached), offsetRotate, n),
        direction)
      ensures forall c :: c in old(children) && Shown(itemsRotate, offsetRotate, c.position) ==> c in children
      ensures !preLayout ==> forall p :: Flag(itemAttached, p) <==>
        || (0 <= p < n && Shown(itemsRotate, offsetRotate, p))
        || (Flag(old(itemAttached), p)
            && (p !in Positions(old(children)) || p in Positions(SweepAsWritten(itemsRotate, offsetRotate, old(children)))))
      ensures !preLayout && old(Synced(n)) ==> Synced(n)
      ensures old(Aligned()) ==> Aligned()
    {
      if preLayout {
        return;
      }
      var cs, att := LayoutPassAsWritten(Geo(), itemsRotate, offsetRotate, itemAttached, children, n, direction);
      children, itemAttached := cs, att;
    }

    /**
     * The loop of `onLayoutChildren` that gives item i, for i below n, the
     * angle FirstChildRotate + i * IntervalAngle and clears its flag; every
     * other entry of both maps is left as it was.
     */
    method AssignAngles(n: int)
      modifies this`itemsRotate, this`itemAttached
      ensures forall i :: 0 <= i < n ==> i in itemsRotate && itemsRotate[i] == i * IntervalAngle
      ensures forall i :: 0 <= i < n ==> i in itemAttached && !itemAttached[i]
      ensures forall k :: !(0 <= k < n) ==> (k in itemsRotate <==> k in old(itemsRotate))
      ensures forall k :: !(0 <= k < n) && k in itemsRotate ==> itemsRotate[k] == old(itemsRotate)[k]
      ensures forall k :: !(0 <= k < n) ==> Flag(itemAttached, k) == Flag(old(itemAttached), k)
    {
      var rot, att := itemsRotate, itemAttached;
      var rotate := FirstChildRotate;
      var i := 0;
      while i < n
        modifies {}
        invariant 0 <= i && (n >= 0 ==> i <= n) && (n < 0 ==> i == 0)
        invariant rotate == i * IntervalAngle
        invariant forall k :: 0 <= k < i ==> k in rot && rot[k] == k * IntervalAngle
        invariant forall k :: 0 <= k < i ==> k in att && !att[k]
        invariant forall k :: !(0 <= k < i) ==> (k in rot <==> k in itemsRotate)
        invariant forall k :: !(0 <= k < i) && k in rot ==> rot[k] == itemsRotate[k]
        invariant forall k :: !(0 <= k < i) ==> Flag(att, k) == Flag(itemAttached, k)
      {
        rot := rot[i := rotate];
        att := att[i := false];
        assert (i + 1) * IntervalAngle == i * IntervalAngle + IntervalAngle;
        rotate := rotate + IntervalAngle;
        i := i + 1;
      }
      itemsRotate, itemAttached := rot, att;
    }

    /**
     * The end of `onLayoutChildren`, once every item below n has its angle and
     * a cleared flag: scraps every view, fixes the offset and lays out the
     * window afresh, so exactly the shown items get a view, in item order.
     */
    method RebuildWindow(n: int)
      requires forall i :: 0 <= i < n ==> i in itemsRotate && i in itemAttached && !itemAttached[i]
      modifies this`offsetRotate, this`children, this`itemAttached
      ensures offsetRotate == FixedOffset(old(offsetRotate), MaxOffsetDegree(n))
      ensures children == Appended(Geo(), itemsRotate, offsetRotate, Window(itemsRotate, offsetRotate, n))
      ensures forall i :: 0 <= i < n ==> (Flag(itemAttached, i) <==> Shown(itemsRotate, offsetRotate, i))
      ensures forall k :: !(0 <= k < n) ==> Flag(itemAttached, k) == Flag(old(itemAttached), k)
      ensures Valid() && Aligned() && Synced(n) && AllShown()
    {
      // detachAndScrapAttachedViews
      children := [];
      FixRotateOffset(n);
      FreshPendingIsWindow(itemsRotate, itemAttached, offsetRotate, n);
      assert Positions(children) == [];
      assert Valid() && Covers(n) && Aligned() && Synced(n);
      LayoutItems(n, false, ScrollRight);
      assert Kept(itemsRotate, offsetRotate, []) == [];
      assert children == [] + Appended(Geo(), itemsRotate, offsetRotate, Window(itemsRotate, offsetRotate, n));
    }

    /**
     * `onLayoutChildren`. With no items or in a pre-layout pass only the
     * offset is reset. Otherwise: measure item 0, anchor the front item at
     * the top centre, give item i the angle i * IntervalAngle and clear its
     * flag, scrap every view, fix the offset and lay out the window.
     */
    method OnLayoutChildren(n: int, preLayout: bool, horizontalSpace: int, measuredWidth: int, measuredHeight: int)
      requires Valid()
      modifies this`offsetRotate, this`children, this`itemAttached, this`itemsRotate
      modifies this`startLeft, this`startTop, this`childWidth, this`childHeight
      ensures Valid()
      ensures n <= 0 || preLayout ==>
        && offsetRotate == 0
        && children == old(children) && itemsRotate == old(itemsRotate) && itemAttached == old(itemAttached)
        && startLeft == old(startLeft) && startTop == old(startTop)
        && childWidth == old(childWidth) && childHeight == old(childHeight)
      ensures n >= 1 && !preLayout ==> forall i :: 0 <= i < n ==> i in itemsRotate && itemsRotate[i] == i * IntervalAngle
      ensures n >= 1 && !preLayout ==> forall k :: !(0 <= k < n) ==> (k in itemsRotate <==> k in old(itemsRotate))
      ensures n >= 1 && !preLayout ==> forall k :: !(0 <= k < n) && k in itemsRotate ==> itemsRotate[k] == old(itemsRotate)[k]
      ensures n >= 1 && !preLayout ==> forall k :: !(0 <= k < n) ==> Flag(itemAttached, k) == Flag(old(itemAttached), k)
      ensures n >= 1 && !preLayout ==> offsetRotate == FixedOffset(old(offsetRotate), MaxOffsetDegree(n))
      ensures n >= 1 && !preLayout ==> 0 <= offsetRotate <= MaxOffsetDegree(n)
      ensures n >= 1 && !preLayout ==> childWidth == measuredWidth && childHeight == measuredHeight
      ensures n >= 1 && !preLayout ==> startLeft == HalfTowardZero(horizontalSpace - measuredWidth) && startTop == 0
      ensures n >= 1 && !preLayout ==> Aligned() && Synced(n) && AllShown()
      ensures n >= 1 && !preLayout ==> forall i :: 0 <= i < n ==> (Flag(itemAttached, i) <==> InWindow(i * IntervalAngle - offsetRotate))
      ensures n >= 1 && !preLayout ==> children == Appended(Geo(), itemsRotate, offsetRotate, Window(itemsRotate, offsetRotate, n))
    {
      if n <= 0 || preLayout {
        offsetRotate := 0;
        return;
      }
      // getViewForPosition(0), addView and measureChildWithMargins: the probe
      // view is scrapped below with all the others, only its size remains.
      childWidth := measuredWidth;
      childHeight := measuredHeight;
      startLeft := HalfTowardZero(horizontalSpace - childWidth);
      startTop := 0;
      AssignAngles(n);
      RebuildWindow(n);
    }

    /**
     * `scrollHorizontallyBy`: takes as much of the drag as keeps the offset in
     * range, turns every view back by that much, lays out the window (views
     * entering on the left go in front when dragging left) and returns the
     * amount taken.
     */
    method ScrollHorizontallyBy(dx: int, n: int, preLayout: bool) returns (willScroll: int)
      requires Valid()
      requires !preLayout ==> Covers(n)
      modifies this`offsetRotate, this`children, this`itemAttached
      ensures willScroll == Consumed(old(offsetRotate), dx, MaxOffsetDegree(n))
      ensures offsetRotate == old(offsetRotate) + willScroll
      ensures Valid()
      ensures old(Aligned()) ==> Aligned()
      ensures preLayout ==> children == Turned(Geo(), old(children), willScroll) && itemAttached == old(itemAttached)
      ensures !preLayout ==> children == Joined(Geo(), itemsRotate, offsetRotate,
        Kept(itemsRotate, offsetRotate, Turned(Geo(), old(children), willScroll)),
        Pending(itemsRotate, old(itemAttached), offsetRotate, n), if dx < 0 then ScrollLeft else ScrollRight)
      ensures !preLayout ==> AllShown()
      ensures !preLayout ==> forall p :: Flag(itemAttached, p) <==>
        || (0 <= p < n && Shown(itemsRotate, offsetRotate, p))
        || (Flag(old(itemAttached), p) && (p !in Positions(old(children)) || Shown(itemsRotate, offsetRotate, p)))
      ensures old(Synced(n)) ==> Synced(n)
      ensures !preLayout && old(Synced(n)) ==>
        forall p :: 0 <= p < n ==>
          && (Flag(itemAttached, p) <==> Shown(itemsRotate, offsetRotate, p))
          && (p in Positions(children) <==> Shown(itemsRotate, offsetRotate, p))
    {
      willScroll := dx;
      var theta := dx;
      var targetRotate := offsetRotate + theta;
      if targetRotate < 0 {
        willScroll := -offsetRotate;
      } else if targetRotate > MaxOffsetDegree(n) {
        willScroll := MaxOffsetDegree(n) - offsetRotate;
      }
      theta := willScroll;
      var offset := offsetRotate + theta;

      var g, rot, att := Geo(), itemsRotate, itemAttached;
      var cs := TurnPass(g, children, theta);
      TurnedKeepsBookkeeping(g, rot, att, offsetRotate, children, theta, n);
      if !preLayout {
        cs, att := LayoutPass(g, rot, offset, att, cs, n, if dx < 0 then ScrollLeft else ScrollRight);
      }
      offsetRotate, children, itemAttached := offset, cs, att;
    }

    /**
     * `scrollHorizontallyBy` with the removal loop of `layoutItems` as written:
     * the same clamp and turn, then the layout of LayoutItemsAsWritten.
     */
    method ScrollHorizontallyByAsWritten(dx: int, n: int, preLayout: bool) returns (willScroll: int)
      requires Valid()
      requires !preLayout ==> Covers(n)
      modifies this`offsetRotate, this`children, this`itemAttached
      ensures willScroll == Consumed(old(offsetRotate), dx, MaxOffsetDegree(n))
      ensures offsetRotate == old(offsetRotate) + willScroll
      ensures Valid()
      ensures old(Aligned()) ==> Aligned()
      ensures preLayout ==> children == Turned(Geo(), old(children), willScroll) && itemAttached == old(itemAttached)
      ensures !preLayout ==> children == Joined(Geo(), itemsRotate, offsetRotate,
        SweepAsWritten(itemsRotate, offsetRotate, Turned(Geo(), old(children), willScroll)),
        Pending(itemsRotate, old(itemAttached), offsetRotate, n), if dx < 0 then ScrollLeft else ScrollRight)
      ensures forall c :: c in Turned(Geo(), old(children), willScroll) && Shown(itemsRotate, offsetRotate, c.position) ==>
        c in children
      ensures !preLayout ==> forall p :: Flag(itemAttached, p) <==>
        || (0 <= p < n && Shown(itemsRotate, offsetRotate, p))
        || (Flag(old(itemAttached), p)
            && (p !in Positions(old(children))
                || p in Positions(SweepAsWritten(itemsRotate, offsetRotate, Turned(Geo(), old(children), willScroll)))))
      ensures old(Synced(n)) ==> Synced(n)
      ensures !preLayout && old(Synced(n)) ==>
        forall p :: 0 <= p < n && Shown(itemsRotate, offsetRotate, p) ==> p in Positions(children)
    {
      ghost var cs0 := children;
      willScroll := ScrollHorizontallyBy(dx, n, true);
      TurnedKeepsBookkeeping(Geo(), itemsRotate, itemAttached, offsetRotate, cs0, willScroll, n);
      LayoutItemsAsWritten(n, preLayout, if dx < 0 then ScrollLeft else ScrollRight);
    }

    /**
     * `scrollToPosition`: for an item in range whose angle is not already the
     * offset, turns straight to that angle and asks the host for a new layout
     * pass (the result); otherwise does nothing.
     */
    method ScrollToPosition(position: int, n: int) returns (layoutRequested: bool)
      modifies this`offsetRotate
      ensures layoutRequested <==> 0 <= position <= n - 1 && position * IntervalAngle != old(offsetRotate)
      ensures offsetRotate == if layoutRequested then position * IntervalAngle else old(offsetRotate)
      ensures layoutRequested ==> 0 <= offsetRotate <= MaxOffsetDegree(n)
    {
      if position < 0 || position > n - 1 {
        return false;
      }
      var targetRotate := position * IntervalAngle;
      if targetRotate == offsetRotate {
        return false;
      }
      offsetRotate := targetRotate;
      FixRotateOffset(n);
      layoutRequested := true;
    }

    /** `onAdapterChanged`: drops every view and resets the offset; the flags
        and angles are left as they are. */
    method OnAdapterChanged()
      requires Valid()
      modifies this`children, this`offsetRotate
      ensures Valid() && Aligned()
      ensures children == [] && offsetRotate == 0
      ensures itemAttached == old(itemAttached) && itemsRotate == old(itemsRotate)
    {
      children := [];
      offsetRotate := 0;
    }
  }
}
