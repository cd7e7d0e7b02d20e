/**
 * The host's list of attached item views, seen as values, and the passes the
 * layout manager makes over it.
 *
 * A child records the item position it shows and the transform the layout
 * manager last gave it: its rotation, its decorated bounds and its scale.
 * `itemsRotate` (item position to assigned angle) and `itemAttached` (item
 * position to "a view for it is attached") are maps, as the sparse arrays of
 * the layout manager are; a position missing from `itemAttached` reads as
 * false.
 */
module ChildList {
  import opened Angles

  /**
   * A view as the layout manager leaves it: the item it shows, the rotation
   * it was given and the anchor and size it was laid out with. Its bounds
   * follow from the anchor, the rotation and the size (the anchor moved by
   * the arc displacement at that rotation; see CustomLayoutManager.Bounds).
   * Both places that rotate a view scale it, in x and y alike, by
   * CalculateScale of the same angle, so its scale is derived from its
   * rotation rather than stored.
   */
  datatype Child = Child(position: int, rotation: int, anchorLeft: int, anchorTop: int,
                         width: int, height: int)
  {
    /** The scale the view is drawn at, in x and in y. */
    function Scale(): real
    {
      CalculateScale(rotation)
    }
  }

  /** What placing a view depends on besides its angle: the anchor of the
      front item and the decorated size shared by all items. */
  datatype Geometry = Geometry(startLeft: int, startTop: int, width: int, height: int)

  /** A view for `position` laid out, rotated and scaled for angle `rotate`:
      the nearer the front, the larger. */
  function Place(g: Geometry, position: int, rotate: int): Child
  {
    Child(position, rotate, g.startLeft, g.startTop, g.width, g.height)
  }

  /** Each view is laid out at the anchor and with the size of g, so its
      bounds and scale are those of its rotation. */
  predicate Placed(g: Geometry, cs: seq<Child>)
  {
    forall j :: 0 <= j < |cs| ==> cs[j] == Place(g, cs[j].position, cs[j].rotation)
  }

  /** The item positions of the children, in child order. */
  function Positions(cs: seq<Child>): seq<int>
  {
    seq(|cs|, j requires 0 <= j < |cs| => cs[j].position)
  }

  /** No item is shown by two children. */
  predicate DistinctPositions(cs: seq<Child>)
  {
    forall j, k :: 0 <= j < k < |cs| ==> cs[j].position != cs[k].position
  }

  /** `itemAttached.get(p)`: false for a position never recorded. */
  predicate Flag(att: map<int, bool>, p: int)
  {
    p in att && att[p]
  }

  /** Item p has an assigned angle, and that angle minus the offset is in the window. */
  predicate Shown(rot: map<int, int>, offset: int, p: int)
  {
    p in rot && InWindow(rot[p] - offset)
  }

  /** The bookkeeping the layout manager keeps: no item has two views, and
      each view's item has an angle and is flagged attached. */
  predicate Bookkept(rot: map<int, int>, att: map<int, bool>, cs: seq<Child>)
  {
    && DistinctPositions(cs)
    && forall j :: 0 <= j < |cs| ==> cs[j].position in rot && Flag(att, cs[j].position)
  }

  /** Each view's rotation is its item's angle minus the offset. */
  predicate AlignedTo(rot: map<int, int>, offset: int, cs: seq<Child>)
  {
    forall j :: 0 <= j < |cs| ==> cs[j].position in rot && cs[j].rotation == rot[cs[j].position] - offset
  }

  /** Each view's item is inside the window. */
  predicate AllShownIn(rot: map<int, int>, offset: int, cs: seq<Child>)
  {
    forall j :: 0 <= j < |cs| ==> Shown(rot, offset, cs[j].position)
  }

  /** Each item below n that is flagged attached has a view. */
  predicate SyncedBelow(att: map<int, bool>, cs: seq<Child>, n: int)
  {
    forall p :: 0 <= p < n && Flag(att, p) ==> p in Positions(cs)
  }

  /** The views of cs show only items that had views in cs0. */
  predicate PositionsWithin(cs: seq<Child>, cs0: seq<Child>)
  {
    forall p :: p in Positions(cs) ==> p in Positions(cs0)
  }

  /** Flags after removals from cs0 down to cs: an item stays flagged when it
      was, and either still has a view or never had one in cs0. */
  ghost predicate FlagsAfterRemoval(att: map<int, bool>, att0: map<int, bool>, cs: seq<Child>, cs0: seq<Child>)
  {
    forall p :: Flag(att, p) <==> Flag(att0, p) && (p in Positions(cs) || p !in Positions(cs0))
  }

  lemma PositionsAppend(a: seq<Child>, b: seq<Child>)
    ensures Positions(a + b) == Positions(a) + Positions(b)
  {
  }

  /** Deleting one child removes its position and no other. */
  lemma DropOne(cs: seq<Child>, i: nat)
    requires i < |cs| && DistinctPositions(cs)
    ensures DistinctPositions(cs[..i] + cs[i + 1..])
    ensures forall p :: p in Positions(cs[..i] + cs[i + 1..]) <==> p in Positions(cs) && p != cs[i].position
  {
    var ds := cs[..i] + cs[i + 1..];
    forall p | p in Positions(cs) && p != cs[i].position
      ensures p in Positions(ds)
    {
      var j :| 0 <= j < |cs| && Positions(cs)[j] == p;
      if j < i {
        assert Positions(ds)[j] == p;
      } else {
        assert Positions(ds)[j - 1] == p;
      }
    }
    forall p | p in Positions(ds)
      ensures p in Positions(cs) && p != cs[i].position
    {
      var j :| 0 <= j < |ds| && Positions(ds)[j] == p;
      if j < i {
        assert Positions(cs)[j] == p;
      } else {
        assert Positions(cs)[j + 1] == p;
      }
    }
  }

  /** Removing and recycling view i, and clearing its item's flag, keeps the bookkeeping. */
  lemma DropStep(g: Geometry, rot: map<int, int>, offset: int, att: map<int, bool>, att0: map<int, bool>,
                 cs: seq<Child>, cs0: seq<Child>, i: nat)
    requires i < |cs| && Bookkept(rot, att, cs)
    requires FlagsAfterRemoval(att, att0, cs, cs0) && PositionsWithin(cs, cs0)
    ensures Bookkept(rot, att[cs[i].position := false], cs[..i] + cs[i + 1..])
    ensures FlagsAfterRemoval(att[cs[i].position := false], att0, cs[..i] + cs[i + 1..], cs0)
    ensures PositionsWithin(cs[..i] + cs[i + 1..], cs0)
    ensures AlignedTo(rot, offset, cs) ==> AlignedTo(rot, offset, cs[..i] + cs[i + 1..])
    ensures Placed(g, cs) ==> Placed(g, cs[..i] + cs[i + 1..])
  {
    DropOne(cs, i);
    assert Positions(cs)[i] == cs[i].position;
    var ds := cs[..i] + cs[i + 1..];
    forall j | 0 <= j < |ds|
      ensures ds[j].position != cs[i].position
    {
      if j < i {
        assert ds[j] == cs[j];
      } else {
        assert ds[j] == cs[j + 1];
      }
    }
  }

  // ---------------------------------------------------------------------------
  // Views made by the layout manager from a list of items or of views.
  // ---------------------------------------------------------------------------

  /** The views the attach pass makes for the items ps, in order, each added
      at the end: view j shows item ps[j] at its angle minus the offset. */
  function Appended(g: Geometry, rot: map<int, int>, offset: int, ps: seq<int>): (cs: seq<Child>)
    requires forall k :: k in ps ==> k in rot
    ensures |cs| == |ps|
  {
    if ps == [] then []
    else Appended(g, rot, offset, ps[..|ps| - 1]) + [Place(g, ps[|ps| - 1], rot[ps[|ps| - 1]] - offset)]
  }

  /** View j of Appended shows item ps[j], placed at its angle minus the offset. */
  lemma {:induction false} AppendedPlaces(g: Geometry, rot: map<int, int>, offset: int, ps: seq<int>)
    requires forall k :: k in ps ==> k in rot
    ensures forall j :: 0 <= j < |ps| ==> Appended(g, rot, offset, ps)[j] == Place(g, ps[j], rot[ps[j]] - offset)
  {
    if ps != [] {
      var init := ps[..|ps| - 1];
      assert forall k :: k in init ==> k in ps;
      AppendedPlaces(g, rot, offset, init);
    }
  }

  /** The views the attach pass makes for the items ps, each added in front:
      the last item's view comes first. */
  function Prepended(g: Geometry, rot: map<int, int>, offset: int, ps: seq<int>): (cs: seq<Child>)
    requires forall k :: k in ps ==> k in rot
    ensures |cs| == |ps|
  {
    if ps == [] then []
    else [Place(g, ps[|ps| - 1], rot[ps[|ps| - 1]] - offset)] + Prepended(g, rot, offset, ps[..|ps| - 1])
  }

  /** View j of Prepended shows item ps[|ps| - 1 - j], placed at its angle
      minus the offset. */
  lemma {:induction false} PrependedPlaces(g: Geometry, rot: map<int, int>, offset: int, ps: seq<int>)
    requires forall k :: k in ps ==> k in rot
    ensures forall j :: 0 <= j < |ps| ==>
      Prepended(g, rot, offset, ps)[j] == Place(g, ps[|ps| - 1 - j], rot[ps[|ps| - 1 - j]] - offset)
  {
    if ps != [] {
      var init := ps[..|ps| - 1];
      assert forall k :: k in init ==> k in ps;
      PrependedPlaces(g, rot, offset, init);
    }
  }

  /** Every view turned back by theta and laid out again; same items, same order. */
  function Turned(g: Geometry, cs: seq<Child>, theta: int): (ts: seq<Child>)
    ensures |ts| == |cs|
    ensures forall j :: 0 <= j < |cs| ==> ts[j] == Place(g, cs[j].position, cs[j].rotation - theta)
  {
    if cs == [] then []
    else [Place(g, cs[0].position, cs[0].rotation - theta)] + Turned(g, cs[1..], theta)
  }

  /** Turning keeps the bookkeeping and the alignment: after the offset grows
      by theta, every view is still at its item's angle minus the offset. */
  lemma TurnedKeepsBookkeeping(g: Geometry, rot: map<int, int>, att: map<int, bool>, offset: int, cs: seq<Child>,
                               theta: int, n: int)
    requires Bookkept(rot, att, cs)
    ensures Bookkept(rot, att, Turned(g, cs, theta)) && Placed(g, Turned(g, cs, theta))
    ensures Positions(Turned(g, cs, theta)) == Positions(cs)
    ensures AlignedTo(rot, offset, cs) ==> AlignedTo(rot, offset + theta, Turned(g, cs, theta))
    ensures SyncedBelow(att, cs, n) ==> SyncedBelow(att, Turned(g, cs, theta), n)
  {
    assert Positions(Turned(g, cs, theta)) == Positions(cs);
  }

  /** Two turns in a row are one turn by their sum. */
  lemma {:induction false} TurnedTwice(g: Geometry, cs: seq<Child>, a: int, b: int)
    ensures Turned(g, Turned(g, cs, a), b) == Turned(g, cs, a + b)
  {
    var once := Turned(g, cs, a);
    forall j | 0 <= j < |cs|
      ensures Turned(g, once, b)[j] == Turned(g, cs, a + b)[j]
    {
      assert once[j] == Place(g, cs[j].position, cs[j].rotation - a);
    }
  }

  /** Turning placed views back by theta and then forward again restores them. */
  lemma TurnedRoundTrip(g: Geometry, cs: seq<Child>, theta: int)
    requires Placed(g, cs)
    ensures Turned(g, Turned(g, cs, theta), -theta) == cs
  {
    TurnedTwice(g, cs, theta, -theta);
  }

  /** The views added in front are those added at the end, in reverse order. */
  lemma PrependedReversesAppended(g: Geometry, rot: map<int, int>, offset: int, ps: seq<int>)
    requires forall k :: k in ps ==> k in rot
    ensures forall j :: 0 <= j < |ps| ==>
      Prepended(g, rot, offset, ps)[j] == Appended(g, rot, offset, ps)[|ps| - 1 - j]
  {
    AppendedPlaces(g, rot, offset, ps);
    PrependedPlaces(g, rot, offset, ps);
  }

  // ---------------------------------------------------------------------------
  // Removal pass, as intended: drop exactly the children whose item is outside
  // the window, keeping the others in order.
  // ---------------------------------------------------------------------------

  function Kept(rot: map<int, int>, offset: int, cs: seq<Child>): seq<Child>
  {
    if cs == [] then []
    else (if Shown(rot, offset, cs[0].position) then [cs[0]] else []) + Kept(rot, offset, cs[1..])
  }

  /** A child survives the removal pass exactly when its item is shown. */
  lemma {:induction false} KeptMembers(rot: map<int, int>, offset: int, cs: seq<Child>)
    ensures forall c :: c in Kept(rot, offset, cs) <==> c in cs && Shown(rot, offset, c.position)
  {
    if cs != [] {
      KeptMembers(rot, offset, cs[1..]);
      assert forall c :: c in cs <==> c == cs[0] || c in cs[1..];
    }
  }

  lemma {:induction false} KeptAppend(rot: map<int, int>, offset: int, a: seq<Child>, b: seq<Child>)
    ensures Kept(rot, offset, a + b) == Kept(rot, offset, a) + Kept(rot, offset, b)
  {
    if a != [] {
      assert (a + b)[1..] == a[1..] + b;
      KeptAppend(rot, offset, a[1..], b);
    } else {
      assert a + b == b;
    }
  }

  /** When every child is shown, the removal pass keeps them all. */
  lemma {:induction false} KeptAllShown(rot: map<int, int>, offset: int, cs: seq<Child>)
    requires forall j :: 0 <= j < |cs| ==> Shown(rot, offset, cs[j].position)
    ensures Kept(rot, offset, cs) == cs
  {
    if cs != [] {
      KeptAllShown(rot, offset, cs[1..]);
    }
  }

  /** Deleting a hidden child does not change what the removal pass keeps. */
  lemma KeptDropHidden(rot: map<int, int>, offset: int, cs: seq<Child>, i: nat)
    requires i < |cs| && !Shown(rot, offset, cs[i].position)
    ensures Kept(rot, offset, cs[..i] + cs[i + 1..]) == Kept(rot, offset, cs)
  {
    assert cs == cs[..i] + ([cs[i]] + cs[i + 1..]);
    KeptAppend(rot, offset, cs[..i], [cs[i]] + cs[i + 1..]);
    assert ([cs[i]] + cs[i + 1..])[1..] == cs[i + 1..];
    KeptAppend(rot, offset, cs[..i], cs[i + 1..]);
  }

  /** A shown item that had a child still has one after the removal pass. */
  lemma {:induction false} KeptKeepsShownPositions(rot: map<int, int>, offset: int, cs: seq<Child>, p: int)
    requires p in Positions(cs) && Shown(rot, offset, p)
    ensures p in Positions(Kept(rot, offset, cs))
  {
    if cs[0].position == p {
      assert Positions(Kept(rot, offset, cs))[0] == p;
    } else {
      var j :| 0 <= j < |cs| && Positions(cs)[j] == p;
      assert Positions(cs[1..])[j - 1] == p;
      KeptKeepsShownPositions(rot, offset, cs[1..], p);
      PositionsAppend(if Shown(rot, offset, cs[0].position) then [cs[0]] else [], Kept(rot, offset, cs[1..]));
    }
  }

  // ---------------------------------------------------------------------------
  // Removal pass, as written in the layout manager: the loop deletes child i
  // and then still advances i, so the child that moved into slot i is never
  // examined.
  // ---------------------------------------------------------------------------

  function SweepAsWritten(rot: map<int, int>, offset: int, cs: seq<Child>): seq<Child>
  {
    if cs == [] then []
    else if Shown(rot, offset, cs[0].position) then [cs[0]] + SweepAsWritten(rot, offset, cs[1..])
    else if |cs| == 1 then []
    else [cs[1]] + SweepAsWritten(rot, offset, cs[2..])
  }

  /** The pass as written never drops a shown child, and adds none. */
  lemma {:induction false} SweepAsWrittenKeepsShown(rot: map<int, int>, offset: int, cs: seq<Child>)
    ensures forall c :: c in cs && Shown(rot, offset, c.position) ==> c in SweepAsWritten(rot, offset, cs)
    ensures forall c :: c in SweepAsWritten(rot, offset, cs) ==> c in cs
  {
    if cs == [] {
    } else if Shown(rot, offset, cs[0].position) {
      SweepAsWrittenKeepsShown(rot, offset, cs[1..]);
      assert forall c :: c in cs <==> c == cs[0] || c in cs[1..];
    } else if |cs| > 1 {
      SweepAsWrittenKeepsShown(rot, offset, cs[2..]);
      assert forall c :: c in cs <==> c == cs[0] || c == cs[1] || c in cs[2..];
    }
  }

  /** The pass as written is right when no two neighbouring children are both
      hidden; `SweepAsWrittenKeepsHiddenPair` gives the converse. */
  lemma {:induction false} SweepAsWrittenWithoutHiddenPairs(rot: map<int, int>, offset: int, cs: seq<Child>)
    requires forall j :: 0 <= j < |cs| - 1 ==> Shown(rot, offset, cs[j].position) || Shown(rot, offset, cs[j + 1].position)
    ensures SweepAsWritten(rot, offset, cs) == Kept(rot, offset, cs)
  {
    if cs == [] {
    } else if Shown(rot, offset, cs[0].position) {
      SweepAsWrittenWithoutHiddenPairs(rot, offset, cs[1..]);
    } else if |cs| > 1 {
      assert Shown(rot, offset, cs[1].position);
      SweepAsWrittenWithoutHiddenPairs(rot, offset, cs[2..]);
      assert cs[1..][1..] == cs[2..];
    }
  }

  /** Two neighbouring hidden children make the pass as written keep a hidden
      child, so it then differs from the intended pass. */
  lemma {:induction false} SweepAsWrittenKeepsHiddenPair(rot: map<int, int>, offset: int, cs: seq<Child>, j: nat)
    requires j + 1 < |cs| && !Shown(rot, offset, cs[j].position) && !Shown(rot, offset, cs[j + 1].position)
    ensures exists c :: c in SweepAsWritten(rot, offset, cs) && !Shown(rot, offset, c.position)
    ensures SweepAsWritten(rot, offset, cs) != Kept(rot, offset, cs)
  {
    var sweep := SweepAsWritten(rot, offset, cs);
    if Shown(rot, offset, cs[0].position) {
      SweepAsWrittenKeepsHiddenPair(rot, offset, cs[1..], j - 1);
      var c :| c in SweepAsWritten(rot, offset, cs[1..]) && !Shown(rot, offset, c.position);
      assert c in sweep;
    } else if j <= 1 {
      assert cs[1] in sweep && !Shown(rot, offset, cs[1].position);
    } else {
      SweepAsWrittenKeepsHiddenPair(rot, offset, cs[2..], j - 2);
      var c :| c in SweepAsWritten(rot, offset, cs[2..]) && !Shown(rot, offset, c.position);
      assert c in sweep;
    }
    KeptMembers(rot, offset, cs);
  }

  /** The items whose views the pass as written keeps include every shown one. */
  lemma SweepAsWrittenKeepsShownPositions(rot: map<int, int>, offset: int, cs: seq<Child>)
    ensures forall p :: p in Positions(cs) && Shown(rot, offset, p) ==> p in Positions(SweepAsWritten(rot, offset, cs))
    ensures forall p :: p in Positions(SweepAsWritten(rot, offset, cs)) ==> p in Positions(cs)
  {
    var sweep := SweepAsWritten(rot, offset, cs);
    SweepAsWrittenKeepsShown(rot, offset, cs);
    forall p | p in Positions(cs) && Shown(rot, offset, p)
      ensures p in Positions(sweep)
    {
      var k :| 0 <= k < |cs| && Positions(cs)[k] == p;
      assert cs[k] in cs;
      var j :| 0 <= j < |sweep| && sweep[j] == cs[k];
      assert Positions(sweep)[j] == p;
    }
    forall p | p in Positions(sweep)
      ensures p in Positions(cs)
    {
      var j :| 0 <= j < |sweep| && Positions(sweep)[j] == p;
      assert sweep[j] in sweep;
      var k :| 0 <= k < |cs| && cs[k] == sweep[j];
      assert Positions(cs)[k] == p;
    }
  }

  /** Angles of a seven-item carousel. */
  function SevenItemAngles(): map<int, int>
  {
    map[0 := 0, 1 := 300, 2 := 600, 3 := 900, 4 := 1200, 5 := 1500, 6 := 1800]
  }

  /**
   * Seven items, children for items 0..4 (the window at offset 0), then one
   * drag of 160 degrees (offset 1600): items 0 and 1 are both past -120
   * degrees. The pass as written removes item 0, skips item 1 and leaves it
   * attached at -130 degrees, outside the window; the intended pass drops both.
   */
  lemma SweepAsWrittenKeepsHiddenChild(cs: seq<Child>)
    requires Positions(cs) == [0, 1, 2, 3, 4]
    ensures SweepAsWritten(SevenItemAngles(), 1600, cs) == cs[1..]
    ensures !Shown(SevenItemAngles(), 1600, cs[1].position)
    ensures Kept(SevenItemAngles(), 1600, cs) == cs[2..]
  {
    var rot := SevenItemAngles();
    assert Positions(cs)[0] == 0 && Positions(cs)[1] == 1 && Positions(cs)[2] == 2;
    assert Positions(cs)[3] == 3 && Positions(cs)[4] == 4;
    assert !Shown(rot, 1600, cs[0].position) && !Shown(rot, 1600, cs[1].position);
    assert Shown(rot, 1600, cs[2].position) && Shown(rot, 1600, cs[3].position) && Shown(rot, 1600, cs[4].position);
    KeptAllShown(rot, 1600, cs[2..]);
    assert cs[2..] == cs[1..][1..];
    KeptAllShown(rot, 1600, cs[1..][1..]);
    SweepAsWrittenWithoutHiddenPairs(rot, 1600, cs[2..]);
  }

  // ---------------------------------------------------------------------------
  // Attach pass: the items below hi, in ascending order, that are shown and
  // not yet attached.
  // ---------------------------------------------------------------------------

  function Pending(rot: map<int, int>, att: map<int, bool>, offset: int, hi: int): (ps: seq<int>)
    ensures forall p :: p in ps ==> 0 <= p < hi && Shown(rot, offset, p) && !Flag(att, p)
    decreases if hi < 0 then 0 else hi
  {
    if hi <= 0 then []
    else Pending(rot, att, offset, hi - 1) + (if Shown(rot, offset, hi - 1) && !Flag(att, hi - 1) then [hi - 1] else [])
  }

  /** Every shown, unattached item below hi is pending. */
  lemma {:induction false} PendingComplete(rot: map<int, int>, att: map<int, bool>, offset: int, hi: int, p: int)
    requires 0 <= p < hi && Shown(rot, offset, p) && !Flag(att, p)
    ensures p in Pending(rot, att, offset, hi)
  {
    if p < hi - 1 {
      PendingComplete(rot, att, offset, hi - 1, p);
    }
  }

  /** Pending items come in strictly ascending order. */
  lemma {:induction false} PendingAscending(rot: map<int, int>, att: map<int, bool>, offset: int, hi: int)
    ensures forall j, k :: 0 <= j < k < |Pending(rot, att, offset, hi)| ==>
      Pending(rot, att, offset, hi)[j] < Pending(rot, att, offset, hi)[k]
  {
    if hi > 0 {
      PendingAscending(rot, att, offset, hi - 1);
      var ps := Pending(rot, att, offset, hi - 1);
      assert forall j :: 0 <= j < |ps| ==> ps[j] in ps;
    }
  }

  /** Only the flags of shown items matter to the attach pass. */
  lemma {:induction false} PendingAgree(rot: map<int, int>, a1: map<int, bool>, a2: map<int, bool>, offset: int, hi: int)
    requires forall p :: 0 <= p < hi && Shown(rot, offset, p) ==> Flag(a1, p) == Flag(a2, p)
    ensures Pending(rot, a1, offset, hi) == Pending(rot, a2, offset, hi)
  {
    if hi > 0 {
      PendingAgree(rot, a1, a2, offset, hi - 1);
    }
  }

  /** The window of a fresh layout: every shown item below n. */
  function Window(rot: map<int, int>, offset: int, n: int): seq<int>
  {
    Pending(rot, map[], offset, n)
  }

  /** With every item below n flagged as not attached, the attach pass
      attaches the whole window. */
  lemma FreshPendingIsWindow(rot: map<int, int>, att: map<int, bool>, offset: int, n: int)
    requires forall i :: 0 <= i < n ==> i in att && !att[i]
    ensures Pending(rot, att, offset, n) == Window(rot, offset, n)
  {
    PendingAgree(rot, att, map[], offset, n);
  }

  /** Six items at offset 0: items 0..4 are shown (item 4, at +120 degrees,
      on the edge), item 5 at +150 degrees is not. */
  lemma SixItemWindow()
    ensures Window(map[0 := 0, 1 := 300, 2 := 600, 3 := 900, 4 := 1200, 5 := 1500], 0, 6) == [0, 1, 2, 3, 4]
  {
    var rot := map[0 := 0, 1 := 300, 2 := 600, 3 := 900, 4 := 1200, 5 := 1500];
    assert Pending(rot, map[], 0, 1) == [0];
    assert Pending(rot, map[], 0, 2) == [0, 1];
    assert Pending(rot, map[], 0, 3) == [0, 1, 2];
    assert Pending(rot, map[], 0, 4) == [0, 1, 2, 3];
    assert Pending(rot, map[], 0, 5) == [0, 1, 2, 3, 4];
  }
}
