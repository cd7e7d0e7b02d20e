/**
 * The loops of `layoutItems` and of `scrollHorizontallyBy`, over the child
 * list and the flags as values. The layout manager commits their results to
 * its fields.
 */
module ChildPasses {
  import opened Angles
  import opened ChildList

  /** Where `layoutItems` adds a newly attached view: in front (ScrollLeft) or at the end. */
  datatype Direction = ScrollLeft | ScrollRight

  /** The child list `layoutItems` leaves: the views that stay, in their order,
      with a view for each added item laid out in front of them (ScrollLeft,
      the last added first) or after them. */
  function Joined(g: Geometry, rot: map<int, int>, offset: int, kept: seq<Child>, added: seq<int>,
                  direction: Direction): seq<Child>
    requires forall k :: k in added ==> k in rot
  {
    if direction == ScrollLeft then Prepended(g, rot, offset, added) + kept
    else kept + Appended(g, rot, offset, added)
  }

  /** Deleting a hidden child at slot i and re-examining slot i keeps the
      remaining result of the pass as written in step. */
  lemma SweepDropStep(rot: map<int, int>, offset: int, cs: seq<Child>, i: nat)
    requires i < |cs| && !Shown(rot, offset, cs[i].position)
    ensures i + 1 < |cs| ==>
      cs[..i] + SweepAsWritten(rot, offset, cs[i..]) ==
      (cs[..i] + cs[i + 1..])[..i + 1] + SweepAsWritten(rot, offset, (cs[..i] + cs[i + 1..])[i + 1..])
    ensures i + 1 == |cs| ==> cs[..i] + SweepAsWritten(rot, offset, cs[i..]) == cs[..i] + cs[i + 1..]
  {
    var ds := cs[..i] + cs[i + 1..];
    if i + 1 < |cs| {
      assert cs[i..][1] == cs[i + 1];
      assert cs[i..][2..] == cs[i + 2..];
      assert ds[..i + 1] == cs[..i] + [cs[i + 1]];
      assert ds[i + 1..] == cs[i + 2..];
    } else {
      assert ds == cs[..i];
    }
  }

  /** Keeping a shown child at slot i and moving on keeps the remaining
      result of the pass as written in step. */
  lemma SweepKeepStep(rot: map<int, int>, offset: int, cs: seq<Child>, i: nat)
    requires i < |cs| && Shown(rot, offset, cs[i].position)
    ensures cs[..i] + SweepAsWritten(rot, offset, cs[i..]) == cs[..i + 1] + SweepAsWritten(rot, offset, cs[i + 1..])
  {
    assert cs[i..][1..] == cs[i + 1..];
    assert cs[..i + 1] == cs[..i] + [cs[i]];
  }

  /**
   * The removal loop as intended: each child whose item is outside the
   * window is deleted and its item unflagged, the others are kept in order.
   */
  method RemovePass(g: Geometry, rot: map<int, int>, offset: int, att0: map<int, bool>, cs0: seq<Child>)
    returns (cs: seq<Child>, att: map<int, bool>)
    requires Bookkept(rot, att0, cs0) && Placed(g, cs0)
    ensures Bookkept(rot, att, cs) && Placed(g, cs)
    ensures AllShownIn(rot, offset, cs)
    ensures cs == Kept(rot, offset, cs0)
    ensures FlagsAfterRemoval(att, att0, cs, cs0)
    ensures AlignedTo(rot, offset, cs0) ==> AlignedTo(rot, offset, cs)
  {
    cs, att := cs0, att0;
    var i := 0;
    while i < |cs|
      invariant 0 <= i <= |cs|
      invariant Bookkept(rot, att, cs) && Placed(g, cs)
      invariant forall j :: 0 <= j < i ==> Shown(rot, offset, cs[j].position)
      invariant Kept(rot, offset, cs) == Kept(rot, offset, cs0)
      invariant PositionsWithin(cs, cs0)
      invariant FlagsAfterRemoval(att, att0, cs, cs0)
      invariant AlignedTo(rot, offset, cs0) ==> AlignedTo(rot, offset, cs)
      decreases |cs| - i
    {
      var position := cs[i].position;
      if rot[position] - offset > MaxRemoveDegree || rot[position] - offset < MinRemoveDegree {
        DropStep(g, rot, offset, att, att0, cs, cs0, i);
        KeptDropHidden(rot, offset, cs, i);
        att := att[position := false];
        cs := cs[..i] + cs[i + 1..];
      } else {
        i := i + 1;
      }
    }
    KeptAllShown(rot, offset, cs);
  }

  /**
   * The removal loop as written: after deleting child i the index still
   * advances, so the child that slid into slot i is not examined.
   */
  method RemovePassAsWritten(g: Geometry, rot: map<int, int>, offset: int, att0: map<int, bool>, cs0: seq<Child>)
    returns (cs: seq<Child>, att: map<int, bool>)
    requires Bookkept(rot, att0, cs0) && Placed(g, cs0)
    ensures Bookkept(rot, att, cs) && Placed(g, cs)
    ensures cs == SweepAsWritten(rot, offset, cs0)
    ensures FlagsAfterRemoval(att, att0, cs, cs0)
    ensures AlignedTo(rot, offset, cs0) ==> AlignedTo(rot, offset, cs)
  {
    cs, att := cs0, att0;
    ghost var swept := SweepAsWritten(rot, offset, cs0);
    var i := 0;
    while i < |cs|
      invariant 0 <= i <= |cs| + 1
      invariant i <= |cs| ==> swept == cs[..i] + SweepAsWritten(rot, offset, cs[i..])
      invariant i > |cs| ==> swept == cs
      invariant Bookkept(rot, att, cs) && Placed(g, cs)
      invariant PositionsWithin(cs, cs0)
      invariant FlagsAfterRemoval(att, att0, cs, cs0)
      invariant AlignedTo(rot, offset, cs0) ==> AlignedTo(rot, offset, cs)
      decreases |cs| + 1 - i
    {
      var position := cs[i].position;
      if rot[position] - offset > MaxRemoveDegree || rot[position] - offset < MinRemoveDegree {
        DropStep(g, rot, offset, att, att0, cs, cs0, i);
        SweepDropStep(rot, offset, cs, i);
        att := att[position := false];
        cs := cs[..i] + cs[i + 1..];
      } else {
        SweepKeepStep(rot, offset, cs, i);
      }
      i := i + 1;
    }
    if i == |cs| {
      assert cs[..i] == cs;
    }
  }

  /** The views the attach pass adds for the pending items ps: one per
      item, none twice, each placed at its item's angle minus the offset. */
  predicate FreshViews(g: Geometry, rot: map<int, int>, offset: int, ps: seq<int>, views: seq<Child>)
  {
    && DistinctPositions(views)
    && (forall j :: 0 <= j < |views| ==> views[j].position in ps && views[j].position in rot)
    && (forall j :: 0 <= j < |views| ==> views[j] == Place(g, views[j].position, rot[views[j].position] - offset))
    && (forall p :: p in ps ==> p in Positions(views))
  }

  /** Views matched one to one with ascending pending items are fresh. */
  lemma ViewsForAreFresh(g: Geometry, rot: map<int, int>, offset: int, ps: seq<int>, views: seq<Child>)
    requires ViewsFor(g, rot, offset, ps, views)
    requires forall j, k :: 0 <= j < k < |ps| ==> ps[j] < ps[k]
    ensures FreshViews(g, rot, offset, ps, views)
  {
    assert forall j :: 0 <= j < |views| ==> views[j].position == ps[j];
    forall p | p in ps
      ensures p in Positions(views)
    {
      var j :| 0 <= j < |ps| && ps[j] == p;
      assert Positions(views)[j] == p;
    }
  }

  /** Appending the views for ascending pending items adds fresh views. */
  lemma AppendedViewsAreFresh(g: Geometry, rot: map<int, int>, offset: int, ps: seq<int>)
    requires forall k :: k in ps ==> k in rot
    requires forall j, k :: 0 <= j < k < |ps| ==> ps[j] < ps[k]
    ensures FreshViews(g, rot, offset, ps, Appended(g, rot, offset, ps))
  {
    AppendedPlaces(g, rot, offset, ps);
    ViewsForAreFresh(g, rot, offset, ps, Appended(g, rot, offset, ps));
  }

  /** Views matched one to one with ascending pending items, last item
      first, are fresh. */
  lemma ReversedViewsAreFresh(g: Geometry, rot: map<int, int>, offset: int, ps: seq<int>, views: seq<Child>)
    requires |views| == |ps| && forall k :: k in ps ==> k in rot
    requires forall j :: 0 <= j < |ps| ==> views[j] == Place(g, ps[|ps| - 1 - j], rot[ps[|ps| - 1 - j]] - offset)
    requires forall j, k :: 0 <= j < k < |ps| ==> ps[j] < ps[k]
    ensures FreshViews(g, rot, offset, ps, views)
  {
    forall j, k | 0 <= j < k < |views|
      ensures views[j].position != views[k].position
    {
      assert views[j].position == ps[|ps| - 1 - j] && views[k].position == ps[|ps| - 1 - k];
    }
    forall p | p in ps
      ensures p in Positions(views)
    {
      var j :| 0 <= j < |ps| && ps[j] == p;
      assert views[|ps| - 1 - j].position == p;
      assert Positions(views)[|ps| - 1 - j] == p;
    }
  }

  /** Putting the views for ascending pending items in front, each before
      the previous one, adds fresh views. */
  lemma PrependedViewsAreFresh(g: Geometry, rot: map<int, int>, offset: int, ps: seq<int>)
    requires forall k :: k in ps ==> k in rot
    requires forall j, k :: 0 <= j < k < |ps| ==> ps[j] < ps[k]
    ensures FreshViews(g, rot, offset, ps, Prepended(g, rot, offset, ps))
  {
    PrependedPlaces(g, rot, offset, ps);
    ReversedViewsAreFresh(g, rot, offset, ps, Prepended(g, rot, offset, ps));
  }

  /** No item has a view in both a and b. */
  lemma DistinctJoin(a: seq<Child>, b: seq<Child>)
    requires DistinctPositions(a) && DistinctPositions(b)
    requires forall j, k :: 0 <= j < |a| && 0 <= k < |b| ==> a[j].position != b[k].position
    ensures DistinctPositions(a + b)
  {
    var ab := a + b;
    forall j, k | 0 <= j < k < |ab|
      ensures ab[j].position != ab[k].position
    {
      if k < |a| {
        assert ab[j] == a[j] && ab[k] == a[k];
      } else if j < |a| {
        assert ab[j] == a[j] && ab[k] == b[k - |a|];
      } else {
        assert ab[j] == b[j - |a|] && ab[k] == b[k - |a|];
      }
    }
  }

  /**
   * Joining the views for the pending items to the children, in either
   * order, keeps the bookkeeping once the pending items are flagged, and
   * keeps every child aligned, shown and every flag below n backed by a
   * view, whenever the children were.
   */
  lemma JoinKeeps(g: Geometry, rot: map<int, int>, offset: int, att0: map<int, bool>, att: map<int, bool>,
                  cs0: seq<Child>, views: seq<Child>, ps: seq<int>, n: int, cs: seq<Child>)
    requires Bookkept(rot, att0, cs0) && Placed(g, cs0)
    requires forall p :: p in ps ==> 0 <= p < n && Shown(rot, offset, p) && !Flag(att0, p)
    requires FreshViews(g, rot, offset, ps, views)
    requires forall p :: Flag(att, p) <==> Flag(att0, p) || p in ps
    requires cs == cs0 + views || cs == views + cs0
    ensures Bookkept(rot, att, cs) && Placed(g, cs)
    ensures AlignedTo(rot, offset, cs0) ==> AlignedTo(rot, offset, cs)
    ensures AllShownIn(rot, offset, cs0) ==> AllShownIn(rot, offset, cs)
    ensures SyncedBelow(att0, cs0, n) ==> SyncedBelow(att, cs, n)
  {
    PositionsAppend(cs0, views);
    PositionsAppend(views, cs0);
    if cs == cs0 + views {
      DistinctJoin(cs0, views);
    } else {
      DistinctJoin(views, cs0);
    }
    assert forall j :: 0 <= j < |cs| ==> cs[j] in cs0 || cs[j] in views;
  }

  /** Views laid out one by one after cs0 are cs0 followed by Appended. */
  lemma AppendedByIndex(g: Geometry, rot: map<int, int>, offset: int, cs0: seq<Child>, ps: seq<int>,
                        views: seq<Child>, cs: seq<Child>)
    requires ViewsFor(g, rot, offset, ps, views) && ViewsAtEnd(cs0, ps, views, cs)
    ensures cs == cs0 + Appended(g, rot, offset, ps)
  {
    AppendedPlaces(g, rot, offset, ps);
    var a := Appended(g, rot, offset, ps);
    forall j | 0 <= j < |cs|
      ensures cs[j] == (cs0 + a)[j]
    {
      if j >= |cs0| {
        assert cs[|cs0| + (j - |cs0|)] == views[j - |cs0|];
      }
    }
  }

  /** Views laid out one by one in front of cs0 are Prepended followed by cs0. */
  lemma PrependedByIndex(g: Geometry, rot: map<int, int>, offset: int, cs0: seq<Child>, ps: seq<int>,
                         views: seq<Child>, cs: seq<Child>)
    requires ViewsFor(g, rot, offset, ps, views) && ViewsInFront(cs0, ps, views, cs)
    ensures cs == Prepended(g, rot, offset, ps) + cs0
  {
    PrependedPlaces(g, rot, offset, ps);
    var b := Prepended(g, rot, offset, ps);
    forall j | 0 <= j < |cs|
      ensures cs[j] == (b + cs0)[j]
    {
      if j < |ps| {
        var k := |ps| - 1 - j;
        assert cs[|ps| - 1 - k] == views[k];
      } else {
        assert cs[|ps| + (j - |ps|)] == cs0[j - |ps|];
      }
    }
  }

  /** Item p is pending exactly when it is below hi, shown and not flagged. */
  lemma PendingMembers(rot: map<int, int>, att: map<int, bool>, offset: int, hi: int)
    ensures forall p :: p in Pending(rot, att, offset, hi) <==> 0 <= p < hi && Shown(rot, offset, p) && !Flag(att, p)
  {
    forall p | 0 <= p < hi && Shown(rot, offset, p) && !Flag(att, p)
      ensures p in Pending(rot, att, offset, hi)
    {
      PendingComplete(rot, att, offset, hi, p);
    }
  }

  /** views[j] is the view placed for item ps[j]. */
  ghost predicate ViewsFor(g: Geometry, rot: map<int, int>, offset: int, ps: seq<int>, views: seq<Child>)
  {
    && |views| == |ps|
    && (forall k :: k in ps ==> k in rot)
    && (forall j :: 0 <= j < |ps| ==> views[j] == Place(g, ps[j], rot[ps[j]] - offset))
  }

  /** Placing a view for one more item keeps the views matched to their items. */
  lemma ViewsForStep(g: Geometry, rot: map<int, int>, offset: int, ps: seq<int>, views: seq<Child>, p: int)
    requires ViewsFor(g, rot, offset, ps, views) && p in rot
    ensures ViewsFor(g, rot, offset, ps + [p], views + [Place(g, p, rot[p] - offset)])
  {
  }

  /** One step of the attach loop: item i joins the pending items exactly
      when it is shown and not flagged. */
  lemma PendingStep(rot: map<int, int>, att: map<int, bool>, offset: int, i: nat)
    ensures Shown(rot, offset, i) && !Flag(att, i) ==> Pending(rot, att, offset, i + 1) == Pending(rot, att, offset, i) + [i]
    ensures !(Shown(rot, offset, i) && !Flag(att, i)) ==> Pending(rot, att, offset, i + 1) == Pending(rot, att, offset, i)
  {
  }

  /** One step of the attach loop on the flags: item i becomes flagged when
      it is shown, and every other flag stays. */
  lemma FlagsStep(rot: map<int, int>, offset: int, att0: map<int, bool>, att: map<int, bool>, i: nat)
    requires forall p :: Flag(att, p) <==> Flag(att0, p) || (0 <= p < i && Shown(rot, offset, p))
    ensures Shown(rot, offset, i) && !Flag(att, i) ==>
      forall p :: Flag(att[i := true], p) <==> Flag(att0, p) || (0 <= p < i + 1 && Shown(rot, offset, p))
    ensures !(Shown(rot, offset, i) && !Flag(att, i)) ==>
      forall p :: Flag(att, p) <==> Flag(att0, p) || (0 <= p < i + 1 && Shown(rot, offset, p))
  {
  }

  /** Views made for the items ps, in order, follow the children cs0. */
  ghost predicate ViewsAtEnd(cs0: seq<Child>, ps: seq<int>, views: seq<Child>, cs: seq<Child>)
    requires |views| == |ps|
  {
    && |cs| == |cs0| + |ps|
    && (forall j :: 0 <= j < |cs0| ==> cs[j] == cs0[j])
    && (forall j :: 0 <= j < |ps| ==> cs[|cs0| + j] == views[j])
  }

  /** Adding one more view at the end keeps the views in order after cs0. */
  lemma AtEndStep(cs0: seq<Child>, cs: seq<Child>, ps: seq<int>, views: seq<Child>, p: int, c: Child)
    requires |views| == |ps| && ViewsAtEnd(cs0, ps, views, cs)
    ensures ViewsAtEnd(cs0, ps + [p], views + [c], cs + [c])
  {
  }

  /** Views made for the items ps, each put in front of the previous one,
      precede the children cs0: the last one first. */
  ghost predicate ViewsInFront(cs0: seq<Child>, ps: seq<int>, views: seq<Child>, cs: seq<Child>)
    requires |views| == |ps|
  {
    && |cs| == |cs0| + |ps|
    && (forall j :: 0 <= j < |cs0| ==> cs[|ps| + j] == cs0[j])
    && (forall j :: 0 <= j < |ps| ==> cs[|ps| - 1 - j] == views[j])
  }

  /** Putting one more view in front keeps the views, latest first, before cs0. */
  lemma InFrontStep(cs0: seq<Child>, cs: seq<Child>, ps: seq<int>, views: seq<Child>, p: int, c: Child)
    requires |views| == |ps| && ViewsInFront(cs0, ps, views, cs)
    ensures ViewsInFront(cs0, ps + [p], views + [c], [c] + cs)
  {
    var cs' := [c] + cs;
    forall j | 0 <= j < |cs0|
      ensures cs'[|ps| + 1 + j] == cs0[j]
    {
      assert cs'[|ps| + 1 + j] == cs[|ps| + j];
    }
    forall j | 0 <= j < |ps| + 1
      ensures cs'[|ps| - j] == (views + [c])[j]
    {
      if j < |ps| {
        assert cs'[|ps| - j] == cs[|ps| - 1 - j];
      }
    }
  }

  /** Where the attach loop stands before item i: the items added so far are
      the pending items below i, each flagged, and their views sit after cs0
      (ScrollRight) or, latest first, before it (ScrollLeft). */
  ghost predicate AttachedBelow(g: Geometry, rot: map<int, int>, offset: int, att0: map<int, bool>, cs0: seq<Child>,
                                direction: Direction, i: nat, att: map<int, bool>, cs: seq<Child>,
                                added: seq<int>, views: seq<Child>)
  {
    && added == Pending(rot, att0, offset, i)
    && (forall p :: Flag(att, p) <==> Flag(att0, p) || (0 <= p < i && Shown(rot, offset, p)))
    && ViewsFor(g, rot, offset, added, views)
    && (direction == ScrollRight ==> ViewsAtEnd(cs0, added, views, cs))
    && (direction == ScrollLeft ==> ViewsInFront(cs0, added, views, cs))
  }

  /** A turn of the attach loop that adds no view keeps AttachedBelow. */
  lemma AttachedSkip(g: Geometry, rot: map<int, int>, offset: int, att0: map<int, bool>, cs0: seq<Child>,
                     direction: Direction, i: nat, att: map<int, bool>, cs: seq<Child>,
                     added: seq<int>, views: seq<Child>)
    requires AttachedBelow(g, rot, offset, att0, cs0, direction, i, att, cs, added, views)
    requires !(Shown(rot, offset, i) && !Flag(att, i))
    ensures AttachedBelow(g, rot, offset, att0, cs0, direction, i + 1, att, cs, added, views)
  {
    PendingStep(rot, att0, offset, i);
    FlagsStep(rot, offset, att0, att, i);
  }

  /** A turn of the attach loop that adds the view c for item i, in front or
      at the end, and flags the item keeps AttachedBelow. */
  lemma AttachedAdd(g: Geometry, rot: map<int, int>, offset: int, att0: map<int, bool>, cs0: seq<Child>,
                    direction: Direction, i: nat, att: map<int, bool>, cs: seq<Child>, cs': seq<Child>,
                    added: seq<int>, views: seq<Child>, c: Child)
    requires AttachedBelow(g, rot, offset, att0, cs0, direction, i, att, cs, added, views)
    requires Shown(rot, offset, i) && !Flag(att, i) && c == Place(g, i, rot[i] - offset)
    requires direction == ScrollLeft ==> cs' == [c] + cs
    requires direction == ScrollRight ==> cs' == cs + [c]
    ensures AttachedBelow(g, rot, offset, att0, cs0, direction, i + 1, att[i := true], cs', added + [i], views + [c])
  {
    PendingStep(rot, att0, offset, i);
    FlagsStep(rot, offset, att0, att, i);
    ViewsForStep(g, rot, offset, added, views, i);
    if direction == ScrollLeft {
      InFrontStep(cs0, cs, added, views, i, c);
    } else {
      AtEndStep(cs0, cs, added, views, i, c);
    }
  }

  /** What the attach loop leaves once it has run over every item below n. */
  lemma AttachDone(g: Geometry, rot: map<int, int>, offset: int, att0: map<int, bool>, cs0: seq<Child>,
                   att: map<int, bool>, cs: seq<Child>, n: int, direction: Direction)
    requires forall i :: 0 <= i < n ==> i in rot
    requires Bookkept(rot, att0, cs0) && Placed(g, cs0)
    requires direction == ScrollRight ==> cs == cs0 + Appended(g, rot, offset, Pending(rot, att0, offset, n))
    requires direction == ScrollLeft ==> cs == Prepended(g, rot, offset, Pending(rot, att0, offset, n)) + cs0
    requires forall p :: Flag(att, p) <==> Flag(att0, p) || (0 <= p < n && Shown(rot, offset, p))
    ensures Bookkept(rot, att, cs) && Placed(g, cs)
    ensures AlignedTo(rot, offset, cs0) ==> AlignedTo(rot, offset, cs)
    ensures AllShownIn(rot, offset, cs0) ==> AllShownIn(rot, offset, cs)
    ensures SyncedBelow(att0, cs0, n) ==> SyncedBelow(att, cs, n)
  {
    var ps := Pending(rot, att0, offset, n);
    PendingAscending(rot, att0, offset, n);
    PendingMembers(rot, att0, offset, n);
    if direction == ScrollRight {
      AppendedViewsAreFresh(g, rot, offset, ps);
      JoinKeeps(g, rot, offset, att0, att, cs0, Appended(g, rot, offset, ps), ps, n, cs);
    } else {
      PrependedViewsAreFresh(g, rot, offset, ps);
      JoinKeeps(g, rot, offset, att0, att, cs0, Prepended(g, rot, offset, ps), ps, n, cs);
    }
  }

  /**
   * The attach loop: for each item below n, in ascending order, that is
   * shown and not flagged, a view is placed at the item's angle minus the
   * offset, added in front (ScrollLeft) or at the end, and the item flagged.
   */
  method AttachPass(g: Geometry, rot: map<int, int>, offset: int, att0: map<int, bool>, cs0: seq<Child>,
                    n: int, direction: Direction)
    returns (cs: seq<Child>, att: map<int, bool>)
    requires forall i :: 0 <= i < n ==> i in rot
    requires Bookkept(rot, att0, cs0) && Placed(g, cs0)
    ensures Bookkept(rot, att, cs) && Placed(g, cs)
    ensures direction == ScrollRight ==> cs == cs0 + Appended(g, rot, offset, Pending(rot, att0, offset, n))
    ensures direction == ScrollLeft ==> cs == Prepended(g, rot, offset, Pending(rot, att0, offset, n)) + cs0
    ensures forall p :: Flag(att, p) <==> Flag(att0, p) || (0 <= p < n && Shown(rot, offset, p))
    ensures AlignedTo(rot, offset, cs0) ==> AlignedTo(rot, offset, cs)
    ensures AllShownIn(rot, offset, cs0) ==> AllShownIn(rot, offset, cs)
    ensures SyncedBelow(att0, cs0, n) ==> SyncedBelow(att, cs, n)
  {
    cs, att := cs0, att0;
    ghost var added: seq<int> := [];
    ghost var views: seq<Child> := [];
    var i := 0;
    while i < n
      invariant 0 <= i && (n >= 0 ==> i <= n) && (n < 0 ==> i == 0)
      invariant AttachedBelow(g, rot, offset, att0, cs0, direction, i, att, cs, added, views)
    {
      if rot[i] - offset <= MaxRemoveDegree && rot[i] - offset >= MinRemoveDegree {
        if !Flag(att, i) {
          var rotate := rot[i] - offset;
          var scrap := Place(g, i, rotate);
          ghost var before := cs;
          if direction == ScrollLeft {
            cs := [scrap] + cs;
          } else {
            cs := cs + [scrap];
          }
          AttachedAdd(g, rot, offset, att0, cs0, direction, i, att, before, cs, added, views, scrap);
          att := att[i := true];
          added, views := added + [i], views + [scrap];
        } else {
          AttachedSkip(g, rot, offset, att0, cs0, direction, i, att, cs, added, views);
        }
      } else {
        AttachedSkip(g, rot, offset, att0, cs0, direction, i, att, cs, added, views);
      }
      i := i + 1;
    }
    assert i == n || n < 0;
    if direction == ScrollRight {
      AppendedByIndex(g, rot, offset, cs0, added, views, cs);
    } else {
      PrependedByIndex(g, rot, offset, cs0, added, views, cs);
    }
    AttachDone(g, rot, offset, att0, cs0, att, cs, n, direction);
  }

  /** After the removal pass an item is flagged exactly when it was flagged
      and either had no view or is shown. */
  lemma RemovedFlags(rot: map<int, int>, offset: int, att0: map<int, bool>, cs0: seq<Child>,
                     att: map<int, bool>, cs: seq<Child>)
    requires FlagsAfterRemoval(att, att0, cs, cs0) && cs == Kept(rot, offset, cs0)
    ensures forall p :: Flag(att, p) <==> Flag(att0, p) && (p !in Positions(cs0) || Shown(rot, offset, p))
  {
    KeptMembers(rot, offset, cs0);
    forall p | p in Positions(cs0) && Shown(rot, offset, p)
      ensures p in Positions(cs)
    {
      KeptKeepsShownPositions(rot, offset, cs0, p);
    }
    forall p | p in Positions(cs)
      ensures p in Positions(cs0) && Shown(rot, offset, p)
    {
      var j :| 0 <= j < |cs| && Positions(cs)[j] == p;
      assert cs[j] in Kept(rot, offset, cs0);
      var k :| 0 <= k < |cs0| && cs0[k] == cs[j];
      assert Positions(cs0)[k] == p;
    }
  }

  /**
   * Both loops of `layoutItems`: the removal pass, then the attach pass over
   * the items below n. The views that stay keep their order; the new views
   * come in front of them (ScrollLeft) or after them.
   */
  method LayoutPass(g: Geometry, rot: map<int, int>, offset: int, att0: map<int, bool>, cs0: seq<Child>,
                    n: int, direction: Direction)
    returns (cs: seq<Child>, att: map<int, bool>)
    requires forall i :: 0 <= i < n ==> i in rot
    requires Bookkept(rot, att0, cs0) && Placed(g, cs0)
    ensures Bookkept(rot, att, cs) && Placed(g, cs)
    ensures cs == Joined(g, rot, offset, Kept(rot, offset, cs0), Pending(rot, att0, offset, n), direction)
    ensures AllShownIn(rot, offset, cs)
    ensures forall p :: Flag(att, p) <==>
      (0 <= p < n && Shown(rot, offset, p)) || (Flag(att0, p) && (p !in Positions(cs0) || Shown(rot, offset, p)))
    ensures SyncedBelow(att0, cs0, n) ==> SyncedBelow(att, cs, n)
    ensures SyncedBelow(att0, cs0, n) ==> forall p :: 0 <= p < n ==> (Flag(att, p) <==> Shown(rot, offset, p))
    ensures SyncedBelow(att0, cs0, n) ==> forall p :: 0 <= p < n ==> (p in Positions(cs) <==> Shown(rot, offset, p))
    ensures AlignedTo(rot, offset, cs0) ==> AlignedTo(rot, offset, cs)
  {
    var cs1, att1 := RemovePass(g, rot, offset, att0, cs0);
    RemovedFlags(rot, offset, att0, cs0, att1, cs1);
    PendingAgree(rot, att1, att0, offset, n);
    cs, att := AttachPass(g, rot, offset, att1, cs1, n, direction);
    if SyncedBelow(att0, cs0, n) {
      forall p | 0 <= p < n && Flag(att, p)
        ensures Shown(rot, offset, p)
      {
        var j :| 0 <= j < |cs| && Positions(cs)[j] == p;
      }
      forall p | 0 <= p < n && p in Positions(cs)
        ensures Shown(rot, offset, p)
      {
        var j :| 0 <= j < |cs| && Positions(cs)[j] == p;
        assert cs[j] in cs;
      }
    }
  }

  /**
   * Both loops of `layoutItems` with the removal loop as written: the views
   * the removal keeps are SweepAsWritten's, so a shown view is never removed
   * but a hidden one may stay. The attach pass is the same as in LayoutPass.
   */
  method LayoutPassAsWritten(g: Geometry, rot: map<int, int>, offset: int, att0: map<int, bool>, cs0: seq<Child>,
                             n: int, direction: Direction)
    returns (cs: seq<Child>, att: map<int, bool>)
    requires forall i :: 0 <= i < n ==> i in rot
    requires Bookkept(rot, att0, cs0) && Placed(g, cs0)
    ensures Bookkept(rot, att, cs) && Placed(g, cs)
    ensures cs == Joined(g, rot, offset, SweepAsWritten(rot, offset, cs0), Pending(rot, att0, offset, n), direction)
    ensures forall c :: c in cs0 && Shown(rot, offset, c.position) ==> c in cs
    ensures forall p :: Flag(att, p) <==>
      (0 <= p < n && Shown(rot, offset, p))
      || (Flag(att0, p) && (p !in Positions(cs0) || p in Positions(SweepAsWritten(rot, offset, cs0))))
    ensures SyncedBelow(att0, cs0, n) ==> SyncedBelow(att, cs, n)
    ensures AlignedTo(rot, offset, cs0) ==> AlignedTo(rot, offset, cs)
  {
    var cs1, att1 := RemovePassAsWritten(g, rot, offset, att0, cs0);
    SweptFlags(rot, offset, att0, cs0, att1, cs1, n);
    PendingAgree(rot, att1, att0, offset, n);
    cs, att := AttachPass(g, rot, offset, att1, cs1, n, direction);
    SweepAsWrittenKeepsShown(rot, offset, cs0);
  }

  /** After the removal pass as written, the flags of shown items are as they
      were, and a flagged item below n still has a view if it had one. */
  lemma SweptFlags(rot: map<int, int>, offset: int, att0: map<int, bool>, cs0: seq<Child>,
                   att: map<int, bool>, cs: seq<Child>, n: int)
    requires FlagsAfterRemoval(att, att0, cs, cs0) && cs == SweepAsWritten(rot, offset, cs0)
    ensures forall p :: Shown(rot, offset, p) ==> Flag(att, p) == Flag(att0, p)
    ensures SyncedBelow(att0, cs0, n) ==> SyncedBelow(att, cs, n)
  {
    SweepAsWrittenKeepsShownPositions(rot, offset, cs0);
  }

  /** The loop of `scrollHorizontallyBy`: each view in turn is turned back by
      theta and laid out, rotated and scaled again, in place. */
  method TurnPass(g: Geometry, cs0: seq<Child>, theta: int) returns (cs: seq<Child>)
    ensures cs == Turned(g, cs0, theta)
  {
    cs := cs0;
    var i := 0;
    while i < |cs|
      invariant 0 <= i <= |cs| == |cs0|
      invariant forall j :: 0 <= j < i ==> cs[j] == Place(g, cs0[j].position, cs0[j].rotation - theta)
      invariant forall j :: i <= j < |cs| ==> cs[j] == cs0[j]
    {
      var view := cs[i];
      var newRotate := view.rotation - theta;
      cs := cs[i := Place(g, view.position, newRotate)];
      i := i + 1;
    }
  }
}
