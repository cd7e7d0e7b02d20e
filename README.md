# Circular layout manager, modelled in Dafny

This project models `CustomLayoutManager`, a list layout manager that puts
same-sized item views on an arc. Item `i` sits at angle `i * 30°`. A single
offset turns the whole arc. The layout is meant to give an item a view
exactly while its angle minus the offset lies in the window
`[-120°, +120°]`. The removal loop as written can leave a view outside the
window; see Findings.

The layout manager keeps two maps. `itemsRotate` holds each item's angle.
`itemAttached` says whether the item has a view. It has four main operations:

- a full layout, which assigns the angles, scraps every view, clamps the offset and lays out the window;
- an incremental layout, which removes the views that left the window and attaches views for the items that entered it, in front when dragging left and at the end otherwise;
- a horizontal scroll, which clamps the drag so that the offset stays in `[0, (itemCount - 1) * 30°]`, turns every view back and lays out again;
- a jump to an item.

Each view is drawn at a scale that is largest (1.4) at the front of the arc
and falls linearly to 1 at 40°.

Angles are whole numbers of tenths of a degree. One unit of horizontal drag
turns the arc by 1/10 degree, so in these units a drag of `dx` turns the arc
by exactly `dx`.

Files:

- `angles.dfy` (module `Angles`): constants, the scale function, the offset clamps and the drag clamp.
- `child_list.dfy` (module `ChildList`): the host's list of attached views as a `seq<Child>`, and the specification functions of the passes over it. These are the views kept by the removal loop (`Kept`), the pass as written (`SweepAsWritten`), the items the attach loop adds (`Pending`), the views it makes (`Appended`, `Prepended`) and the turned views (`Turned`).
- `child_passes.dfy` (module `ChildPasses`): the loops of `layoutItems` and `scrollHorizontallyBy` as methods over values, each proved against those functions.
- `layout_manager.dfy` (module `LayoutManager`): the class `CustomLayoutManager` with the source's fields. Its methods update those fields.

## Model

| member | source | states |
|---|---|---|
| Angles.MaxOffsetDegree | app/src/main/java/cn/xmrk/layoutmanager/CustomLayoutManager.java:282-284 | the largest offset is the last item's angle; the offset range is non-empty exactly when there is an item |
| Angles.CalculateScale | app/src/main/java/cn/xmrk/layoutmanager/CustomLayoutManager.java:197-200 | scale is 1.4 at the front, 1 from 40° on, and always between 1 and 1.4 |
| Angles.ScaleShrinksAwayFromFront | app/src/main/java/cn/xmrk/layoutmanager/CustomLayoutManager.java:194-200 | the nearer an angle is to the front, the larger the scale; strictly larger inside 40°; equal distances give equal scales |
| Angles.FixedOffset | app/src/main/java/cn/xmrk/layoutmanager/CustomLayoutManager.java:269-277 | with items, the fixed offset is the point of [0, maxOffset] nearest to the offset; an in-range offset is unchanged; with no items the result is maxOffset itself, which is then negative |
| Angles.FixedOffsetIdempotent | app/src/main/java/cn/xmrk/layoutmanager/CustomLayoutManager.java:269-277 | fixing the offset twice is the same as fixing it once |
| Angles.Consumed | app/src/main/java/cn/xmrk/layoutmanager/CustomLayoutManager.java:205-217 | the whole drag is taken when the new offset stays in range; otherwise exactly what brings the offset to 0 or to maxOffset; from an in-range offset, the new offset stays in range and the amount taken is never more than the drag and has the drag's sign |
| Angles.ClampedScrollIsShorter | app/src/main/java/cn/xmrk/layoutmanager/CustomLayoutManager.java:211-216 | from an in-range offset, a drag that would leave the range is cut strictly short |
| Angles.ScrollLandsOnFixedOffset | app/src/main/java/cn/xmrk/layoutmanager/CustomLayoutManager.java:205-220 | from an in-range offset, scrolling lands where fixRotateOffset would put the unclamped target |
| Angles.ScrollRoundTrip | app/src/main/java/cn/xmrk/layoutmanager/CustomLayoutManager.java:205-220 | an in-range drag followed by the opposite drag restores the offset |
| Angles.JumpTargetInRange | app/src/main/java/cn/xmrk/layoutmanager/CustomLayoutManager.java:306-311 | the angle of an existing item is already in range, so fixing it after a jump changes nothing |
| ChildList.DropStep | app/src/main/java/cn/xmrk/layoutmanager/CustomLayoutManager.java:154-158 | removing a view and clearing its item's flag keeps the bookkeeping: no item with two views, every view's item has an angle and is flagged |
| ChildList.AppendedPlaces | app/src/main/java/cn/xmrk/layoutmanager/CustomLayoutManager.java:166-182 | the j-th view added at the end shows the j-th added item, placed at its angle minus the offset |
| ChildList.PrependedPlaces | app/src/main/java/cn/xmrk/layoutmanager/CustomLayoutManager.java:166-182 | the j-th view added in front shows the j-th item counting from the last one added |
| ChildList.PrependedReversesAppended | app/src/main/java/cn/xmrk/layoutmanager/CustomLayoutManager.java:168-171 | dragging left adds the same views as dragging right, in reverse order |
| ChildList.TurnedKeepsBookkeeping | app/src/main/java/cn/xmrk/layoutmanager/CustomLayoutManager.java:220-237 | turning every view keeps the items, their order and the bookkeeping; views aligned to the old offset are aligned to the new one |
| ChildList.TurnedTwice | app/src/main/java/cn/xmrk/layoutmanager/CustomLayoutManager.java:223-237 | two turns in a row equal one turn by their sum |
| ChildList.TurnedRoundTrip | app/src/main/java/cn/xmrk/layoutmanager/CustomLayoutManager.java:223-237 | turning placed views back and forward again restores rotation, bounds and scale |
| ChildList.KeptMembers | app/src/main/java/cn/xmrk/layoutmanager/CustomLayoutManager.java:151-159 | a view survives the intended removal pass exactly when its item is in the window |
| ChildList.KeptAppend | app/src/main/java/cn/xmrk/layoutmanager/CustomLayoutManager.java:151-159 | the removal pass works view by view: on a concatenation it is the concatenation of its results |
| ChildList.KeptAllShown | app/src/main/java/cn/xmrk/layoutmanager/CustomLayoutManager.java:151-159 | when every view is in the window, the removal pass keeps them all |
| ChildList.KeptDropHidden | app/src/main/java/cn/xmrk/layoutmanager/CustomLayoutManager.java:154-158 | removing a hidden view does not change what the removal pass keeps |
| ChildList.KeptKeepsShownPositions | app/src/main/java/cn/xmrk/layoutmanager/CustomLayoutManager.java:151-159 | an item in the window that had a view still has one after the removal pass |
| ChildList.SweepAsWrittenKeepsShown | app/src/main/java/cn/xmrk/layoutmanager/CustomLayoutManager.java:151-159 | the removal loop as written never removes a view in the window and adds none |
| ChildList.SweepAsWrittenWithoutHiddenPairs | app/src/main/java/cn/xmrk/layoutmanager/CustomLayoutManager.java:151-159 | the loop as written removes exactly the hidden views when no two neighbouring views are hidden |
| ChildList.SweepAsWrittenKeepsHiddenPair | app/src/main/java/cn/xmrk/layoutmanager/CustomLayoutManager.java:151-159 | conversely, two neighbouring hidden views make the loop as written keep a hidden view, so it differs from the intended pass |
| ChildList.SweepAsWrittenKeepsShownPositions | app/src/main/java/cn/xmrk/layoutmanager/CustomLayoutManager.java:151-159 | after the loop as written, every item in the window that had a view still has one, and no item gains one |
| ChildList.SweepAsWrittenKeepsHiddenChild | app/src/main/java/cn/xmrk/layoutmanager/CustomLayoutManager.java:151-159 | the loop as written leaves item 1 attached at -130° after a 160° drag with views for items 0..4; the intended pass removes it |
| ChildList.Pending | app/src/main/java/cn/xmrk/layoutmanager/CustomLayoutManager.java:162-165 | every item the attach loop adds is below the count, in the window and not yet attached |
| ChildList.PendingComplete | app/src/main/java/cn/xmrk/layoutmanager/CustomLayoutManager.java:162-165 | every item below the count that is in the window and not attached is added |
| ChildList.PendingAscending | app/src/main/java/cn/xmrk/layoutmanager/CustomLayoutManager.java:162 | items are added in strictly ascending order |
| ChildList.PendingAgree | app/src/main/java/cn/xmrk/layoutmanager/CustomLayoutManager.java:163-165 | only the flags of items in the window decide what is added |
| ChildList.FreshPendingIsWindow | app/src/main/java/cn/xmrk/layoutmanager/CustomLayoutManager.java:124-133 | once every item's flag is cleared, the attach loop adds exactly the window |
| ChildList.SixItemWindow | app/src/main/java/cn/xmrk/layoutmanager/CustomLayoutManager.java:93-94 | six items at offset 0: items 0..4 are shown (item 4 on the +120° edge), item 5 is not |
| ChildPasses.RemovePass | app/src/main/java/cn/xmrk/layoutmanager/CustomLayoutManager.java:151-159 | the intended removal loop leaves exactly the views in the window, in order, and clears the flag of every removed item only |
| ChildPasses.RemovePassAsWritten | app/src/main/java/cn/xmrk/layoutmanager/CustomLayoutManager.java:151-159 | the removal loop as written (index advances after a removal) yields SweepAsWritten and keeps the bookkeeping |
| ChildPasses.AppendedViewsAreFresh | app/src/main/java/cn/xmrk/layoutmanager/CustomLayoutManager.java:162-182 | the views added at the end show each added item once, placed at its angle |
| ChildPasses.PrependedViewsAreFresh | app/src/main/java/cn/xmrk/layoutmanager/CustomLayoutManager.java:162-182 | the views added in front show each added item once, placed at its angle |
| ChildPasses.JoinKeeps | app/src/main/java/cn/xmrk/layoutmanager/CustomLayoutManager.java:166-182 | adding fresh views in front or at the end keeps the bookkeeping, alignment, window membership and flag-implies-view |
| ChildPasses.PendingMembers | app/src/main/java/cn/xmrk/layoutmanager/CustomLayoutManager.java:162-165 | an item is added exactly when it is below the count, in the window and not attached |
| ChildPasses.AttachPass | app/src/main/java/cn/xmrk/layoutmanager/CustomLayoutManager.java:162-190 | the attach loop puts the pending views in front of (left) or after (right) the existing ones, and flags exactly the items in the window on top of the old flags |
| ChildPasses.RemovedFlags | app/src/main/java/cn/xmrk/layoutmanager/CustomLayoutManager.java:151-159 | after removal, an item is flagged exactly when it was flagged and either had no view or is in the window |
| ChildPasses.LayoutPass | app/src/main/java/cn/xmrk/layoutmanager/CustomLayoutManager.java:146-191 | both loops, with the intended removal: the views in the window stay in order and the new views come in front or after; every view is in the window; an item is flagged exactly when it is below the count and in the window, or was flagged and either had no view or is in the window; if flags implied views before they still do, and then an item below the count has a view exactly when it is in the window |
| ChildPasses.SweptFlags | app/src/main/java/cn/xmrk/layoutmanager/CustomLayoutManager.java:151-159 | the removal loop as written leaves the flags of items in the window unchanged and keeps flag-implies-view |
| ChildPasses.LayoutPassAsWritten | app/src/main/java/cn/xmrk/layoutmanager/CustomLayoutManager.java:146-191 | both loops as written: the views the loop as written keeps, then the new views in front or after; no view in the window is removed; an item is flagged exactly when it is below the count and in the window, or was flagged and either had no view or kept it; flag-implies-view is kept, and then every item in the window below the count has a view |
| ChildPasses.TurnPass | app/src/main/java/cn/xmrk/layoutmanager/CustomLayoutManager.java:223-237 | the scroll loop turns every view back by theta in place: same items and order, each re-placed at its new rotation |
| LayoutManager.HalfTowardZero | app/src/main/java/cn/xmrk/layoutmanager/CustomLayoutManager.java:119 | Java's int division by 2: the quotient rounded toward zero, with the sign of the dividend |
| LayoutManager.CustomLayoutManager.ViewBoundsFollowAngles | app/src/main/java/cn/xmrk/layoutmanager/CustomLayoutManager.java:226-230 | while views are aligned, each view's rectangle is the front anchor moved by the arc displacement at its item's angle minus the offset, at the measured item size |
| LayoutManager.CustomLayoutManager.constructor | app/src/main/java/cn/xmrk/layoutmanager/CustomLayoutManager.java:88-95 | a new layout manager has the given radius, offset 0, no views and empty maps |
| LayoutManager.CustomLayoutManager.Default | app/src/main/java/cn/xmrk/layoutmanager/CustomLayoutManager.java:83-85 | the argument-less constructor uses the default radius 100 |
| LayoutManager.CustomLayoutManager.ComputeScrollVectorForPosition | app/src/main/java/cn/xmrk/layoutmanager/CustomLayoutManager.java:295-302 | no vector without views; otherwise (-1, 0) exactly when the target comes before the first view's item, else (1, 0) |
| LayoutManager.CustomLayoutManager.FixRotateOffset | app/src/main/java/cn/xmrk/layoutmanager/CustomLayoutManager.java:269-277 | the offset becomes FixedOffset of the old one; with items it lies in [0, maxOffset] |
| LayoutManager.CustomLayoutManager.LayoutItems | app/src/main/java/cn/xmrk/layoutmanager/CustomLayoutManager.java:146-191 | nothing changes in pre-layout; otherwise the views are the kept views plus the pending views in front or at the end, all in the window, and the flags follow the rule of LayoutPass; if flags implied views before they still do, and then exactly the items in the window below the count are flagged and have views |
| LayoutManager.CustomLayoutManager.LayoutItemsAsWritten | app/src/main/java/cn/xmrk/layoutmanager/CustomLayoutManager.java:146-191 | the same with the removal loop as written: nothing changes in pre-layout; otherwise the views are those the loop as written keeps plus the pending views; no view in the window is removed; flags follow the rule of LayoutPassAsWritten; flag-implies-view is kept |
| LayoutManager.CustomLayoutManager.AssignAngles | app/src/main/java/cn/xmrk/layoutmanager/CustomLayoutManager.java:123-128 | item i below the count gets angle i * 30° and a cleared flag; every other entry is left as it was |
| LayoutManager.CustomLayoutManager.RebuildWindow | app/src/main/java/cn/xmrk/layoutmanager/CustomLayoutManager.java:131-133 | after scrapping every view and fixing the offset, the views are exactly the window in item order, an item below the count is flagged exactly when it is in the window, and every other flag is unchanged |
| LayoutManager.CustomLayoutManager.OnLayoutChildren | app/src/main/java/cn/xmrk/layoutmanager/CustomLayoutManager.java:104-134 | with no items or in pre-layout only the offset resets to 0; otherwise the size and anchor are set, the angles assigned, the offset clamped, and the views are exactly the window |
| LayoutManager.CustomLayoutManager.ScrollHorizontallyBy | app/src/main/java/cn/xmrk/layoutmanager/CustomLayoutManager.java:204-245 | returns the clamped drag, moves the offset by it, turns every view back, then lays out with the direction given by the sign of dx; every view ends in the window; the flags follow the rule of LayoutPass on the turned views; flag-implies-view is kept, and then exactly the items in the window below the count are flagged and have views |
| LayoutManager.CustomLayoutManager.ScrollHorizontallyByAsWritten | app/src/main/java/cn/xmrk/layoutmanager/CustomLayoutManager.java:204-245 | the scroll as the source writes it: the same clamped drag and offset, the views turned back, then the views the removal loop as written keeps plus the pending views in front or after; no turned view in the window is removed; an item is flagged exactly when it is below the count and in the window, or was flagged and either had no view or kept it; flag-implies-view is kept, and then every item in the window below the count has a view |
| LayoutManager.CustomLayoutManager.ScrollToPosition | app/src/main/java/cn/xmrk/layoutmanager/CustomLayoutManager.java:306-313 | a layout is requested exactly for an existing item whose angle is not the offset; the offset then becomes that angle, which is in range |
| LayoutManager.CustomLayoutManager.OnAdapterChanged | app/src/main/java/cn/xmrk/layoutmanager/CustomLayoutManager.java:329-332 | every view is dropped and the offset reset; the flags and angles are left as they were |

## Left out

- Trigonometry: `calLeftPosition` and `calTopPosition` (cos and sin of `90° - rotate`, times the radius, cast to int) are not computed. The constructor takes them as two functions of radius and angle, and `Bounds` uses them.
- Floating point: the offset and angles are `float` degrees in the source. Here they are exact integers in tenths of a degree, so `dx / 10`, `-offsetRotate * 10` and the `(int)` casts of the scroll clamp lose nothing. Rounding error is not modelled.
- The host framework is left out: the recycler, `getViewForPosition`, `measureChildWithMargins`, `addView`, `removeAndRecycleView` and `detachAndScrapAttachedViews`. Adding and removing views is modelled as editing the `children` sequence.
  - The probe view that `onLayoutChildren` fetches and adds for item 0 is modelled only by its measured size. The source scraps it with every other view a few lines later.
- The item count, the pre-layout flag, the horizontal space and the measured item size are parameters of the methods that read them.
- `requestLayout` becomes the boolean result of `ScrollToPosition`.
- `smoothScrollToPosition` and its `LinearSmoothScroller` are not modelled; only the direction vector they ask for is.
- `generateDefaultLayoutParams`, `canScrollHorizontally`, `getHorizontalSpace` and `getVerticalSpace` are not modelled. `CustomImageView` and `MainActivity` are not part of this model.
- A view's scale is not stored. Both places that rotate a view call `setScaleX` and `setScaleY` with `calculateScale` of the same angle, so `Child.Scale` derives it from the rotation.
- Reading `itemsRotate` for an item with no angle unboxes null in the source and throws. Callers must instead guarantee every read key exists: `Valid` and `Covers` are preconditions.
- The loops of `layoutItems` and `scrollHorizontallyBy` run in `ChildPasses` over the child list as a value. The class then assigns the results to its fields. Views are values, so aliasing between a view object and the host's list is not modelled.
- The operations (the constructors, `LayoutItems`, `OnLayoutChildren`, the scrolls, `ScrollToPosition` and `OnAdapterChanged`) keep `Valid` (the bookkeeping). The steps of a full layout do not: `AssignAngles` clears every flag below the count while the views are still attached, as the source does between CustomLayoutManager.java:126 and :131, and `RebuildWindow` does not require `Valid` but re-establishes it. `Aligned` (each view's rotation is its item's angle minus the offset) and `Synced` (a flagged item below the count has a view) are not invariants of the class, so the methods that need them state them conditionally:
  - `Aligned` is established by the constructors, by `OnAdapterChanged` and by a full layout (`OnLayoutChildren` with items, outside pre-layout), and kept by `LayoutItems`, `LayoutItemsAsWritten`, `ScrollHorizontallyBy` and `ScrollHorizontallyByAsWritten`. `ScrollToPosition`, and the early return of `OnLayoutChildren`, move the offset without touching the views and can break it.
  - `Synced` is established by the constructors and by a full layout, and kept by `LayoutItems`, `LayoutItemsAsWritten`, `ScrollHorizontallyBy` and `ScrollHorizontallyByAsWritten`. `OnAdapterChanged` drops the views but leaves the flags set and can break it.
- ChildPasses.LayoutPass: runs the corrected removal loop, not the one as written (see Findings). The comment above the loop at CustomLayoutManager.java:150 says it removes the views outside the screen, and the loop as written does not always do so. `ChildPasses.LayoutPassAsWritten` runs the loop as written.
- LayoutManager.CustomLayoutManager.LayoutItems: lays out with `ChildPasses.LayoutPass`, so with the corrected removal loop. `LayoutManager.CustomLayoutManager.LayoutItemsAsWritten` is the same method with the loop as written.
- LayoutManager.CustomLayoutManager.ScrollHorizontallyBy: lays out with `ChildPasses.LayoutPass`, so with the corrected removal loop. `LayoutManager.CustomLayoutManager.ScrollHorizontallyByAsWritten` is the scroll with the loop as written: the same clamp and turn, then `LayoutItemsAsWritten`.

## Findings

| source | as written | input that shows it | evidently intended | confidence | as-written member | corrected member |
|---|---|---|---|---|---|---|
| app/src/main/java/cn/xmrk/layoutmanager/CustomLayoutManager.java:151-159 | after `removeAndRecycleView` the loop still increments `i`, so the view that moved into slot `i` is never examined | seven items, views for items 0..4 at offset 0, then one drag of 1600 (160°): item 0 (-160°) is removed, item 1 (-130°) is skipped and stays attached outside the window | every view whose item is outside [-120°, +120°] is removed and its flag cleared | high that the view is skipped; not executed | ChildPasses.RemovePassAsWritten, ChildPasses.LayoutPassAsWritten, LayoutManager.CustomLayoutManager.ScrollHorizontallyByAsWritten, ChildList.SweepAsWrittenKeepsHiddenChild, ChildList.SweepAsWrittenKeepsHiddenPair | ChildPasses.RemovePass, ChildPasses.LayoutPass |
