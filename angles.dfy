/**
 * Angle arithmetic of the circular ("carousel") layout manager.
 *
 * Every angle here is a whole number of TENTHS OF A DEGREE. The layout
 * manager turns ten units of horizontal drag into one degree (its distance
 * ratio), so in these units a drag of dx turns the carousel by exactly dx, and
 * converting an angle back to drag units loses nothing.
 */
module Angles {

  /** Angle between two neighbouring items: 30 degrees. */
  const IntervalAngle: int := 300

  /** The first item sits at angle 0, the top of the arc. */
  const FirstChildRotate: int := 0

  /** From 40 degrees off the front on, an item is drawn at its normal size. */
  const MinScaleRotate: int := 400

  /** Scale of the item standing exactly at the front of the arc. */
  const MaxScale: real := 1.4

  /** An item is shown while its angle relative to the front lies in
      [MinRemoveDegree, MaxRemoveDegree]: -120 to +120 degrees. */
  const MinRemoveDegree: int := -1200
  const MaxRemoveDegree: int := 1200

  /** Radius used by the argument-less constructor. */
  const DefaultRadius: int := 100

  function Abs(x: int): nat
  {
    if x < 0 then -x else x
  }

  /** Distance between two angles. */
  function Dist(a: int, b: int): nat
  {
    Abs(a - b)
  }

  /** The visibility window: inclusive at both ends. */
  predicate InWindow(rotate: int)
  {
    MinRemoveDegree <= rotate <= MaxRemoveDegree
  }

  /** Largest offset the carousel may turn to: the angle of the last item.
      The range [0, maxOffset] is non-empty exactly when there is an item. */
  function MaxOffsetDegree(itemCount: int): (maxOffset: int)
    ensures maxOffset >= 0 <==> itemCount >= 1
    ensures itemCount >= 1 ==> maxOffset == FirstChildRotate + (itemCount - 1) * IntervalAngle
  {
    (itemCount - 1) * IntervalAngle
  }

  /**
   * Scale for an item at angle `rotate` from the front: largest at the front,
   * falling linearly to 1 at MinScaleRotate and staying 1 beyond.
   */
  function CalculateScale(rotate: int): (scale: real)
    ensures rotate == 0 ==> scale == MaxScale
    ensures Abs(rotate) >= MinScaleRotate ==> scale == 1.0
    ensures 1.0 <= scale <= MaxScale
  {
    var r := if Abs(rotate) > MinScaleRotate then MinScaleRotate else Abs(rotate);
    (1.0 - r as real / MinScaleRotate as real) * (MaxScale - 1.0) + 1.0
  }

  /** The nearer an item is to the front, the larger it is drawn. */
  lemma ScaleShrinksAwayFromFront(a: int, b: int)
    requires Abs(a) <= Abs(b)
    ensures CalculateScale(b) <= CalculateScale(a)
    ensures Abs(a) < Abs(b) && Abs(a) < MinScaleRotate ==> CalculateScale(b) < CalculateScale(a)
    ensures Abs(a) == Abs(b) ==> CalculateScale(a) == CalculateScale(b)
  {
  }

  /**
   * The offset after `fixRotateOffset`: first raised to 0 if negative, then
   * lowered to maxOffset if above it. When the range [0, maxOffset] is
   * non-empty the result is its point nearest to `offset`; with no items
   * (maxOffset < 0) the second test wins and the result is maxOffset.
   */
  function FixedOffset(offset: int, maxOffset: int): (fixed: int)
    ensures maxOffset >= 0 ==> 0 <= fixed <= maxOffset
    ensures maxOffset >= 0 ==> forall y :: 0 <= y <= maxOffset ==> Dist(fixed, offset) <= Dist(y, offset)
    ensures 0 <= offset <= maxOffset ==> fixed == offset
    ensures maxOffset < 0 ==> fixed == maxOffset
  {
    var raised := if offset < 0 then 0 else offset;
    if raised > maxOffset then maxOffset else raised
  }

  /** Fixing the offset a second time changes nothing, whatever the item count. */
  lemma FixedOffsetIdempotent(offset: int, maxOffset: int)
    ensures FixedOffset(FixedOffset(offset, maxOffset), maxOffset) == FixedOffset(offset, maxOffset)
  {
  }

  /**
   * How much of a horizontal drag `dx` the carousel takes when its offset is
   * `offset`: all of it if the new offset stays in [0, maxOffset], otherwise
   * exactly what brings the offset to 0 (turning back) or to maxOffset.
   */
  function Consumed(offset: int, dx: int, maxOffset: int): (willScroll: int)
    ensures 0 <= offset + dx <= maxOffset ==> willScroll == dx
    ensures offset + dx < 0 ==> offset + willScroll == 0
    ensures 0 <= offset + dx && maxOffset < offset + dx ==> offset + willScroll == maxOffset
    ensures 0 <= offset <= maxOffset ==>
      && 0 <= offset + willScroll <= maxOffset
      && Abs(willScroll) <= Abs(dx)
      && (dx >= 0 ==> willScroll >= 0)
      && (dx <= 0 ==> willScroll <= 0)
  {
    var targetRotate := offset + dx;
    if targetRotate < 0 then -offset
    else if targetRotate > maxOffset then maxOffset - offset
    else dx
  }

  /** A drag that would leave the range is cut short: strictly less is taken. */
  lemma ClampedScrollIsShorter(offset: int, dx: int, maxOffset: int)
    requires 0 <= offset <= maxOffset
    requires !(0 <= offset + dx <= maxOffset)
    ensures Abs(Consumed(offset, dx, maxOffset)) < Abs(dx)
  {
  }

  /** From an in-range offset, scrolling lands exactly where fixing the
      unclamped target would: the two clamps agree. */
  lemma ScrollLandsOnFixedOffset(offset: int, dx: int, maxOffset: int)
    requires 0 <= offset <= maxOffset
    ensures offset + Consumed(offset, dx, maxOffset) == FixedOffset(offset + dx, maxOffset)
  {
  }

  /** A drag that stays in range, followed by the opposite drag, restores the offset. */
  lemma ScrollRoundTrip(offset: int, dx: int, maxOffset: int)
    requires 0 <= offset <= maxOffset
    requires 0 <= offset + dx <= maxOffset
    ensures Consumed(offset, dx, maxOffset) == dx
    ensures Consumed(offset + dx, -dx, maxOffset) == -dx
    ensures offset + dx + Consumed(offset + dx, -dx, maxOffset) == offset
  {
  }

  /** The offset `scrollToPosition` jumps to is already in range, so fixing it is a no-op. */
  lemma JumpTargetInRange(position: int, itemCount: int)
    requires 0 <= position <= itemCount - 1
    ensures 0 <= position * IntervalAngle <= MaxOffsetDegree(itemCount)
    ensures FixedOffset(position * IntervalAngle, MaxOffsetDegree(itemCount)) == position * IntervalAngle
  {
  }
}
