/** A group with a hole: what is drawn around it is the rim of the hole. */
module HexRing {
  import opened Wrappers
  import opened HexGrid
  import opened HexBorder
  import opened HexPieces
  import opened HexTrail
  import opened HexagonChart

  lemma {:induction false} InGroupFirst(features: seq<Feature>, g: string, i: nat)
    requires i < |features| && features[i].group == g
    requires forall k :: 0 <= k < i ==> features[k].group != g
    ensures InGroup(features, g) != [] && InGroup(features, g)[0] == features[i]
  {
    var last := |features| - 1;
    if i == last {
      NoneInGroup(features[..last], g);
    } else {
      InGroupFirst(features[..last], g, i);
    }
  }

  lemma {:induction false} NoneInGroup(features: seq<Feature>, g: string)
    requires forall f :: f in features ==> f.group != g
    ensures InGroup(features, g) == []
  {
    if features == [] {
    } else {
      NoneInGroup(features[..|features| - 1], g);
    }
  }

  lemma {:induction false} FirstSideIs(f: Feature, allFeatures: seq<Feature>, j: nat, n: nat)
    requires j < n <= 6 && |f.ring| == 7 && |f.neighbors| == 6
    requires IsBorderSide(f, allFeatures, j) && forall k :: 0 <= k < j ==> !IsBorderSide(f, allFeatures, k)
    ensures FirstSide(f, allFeatures, n) == Some(FeatureSide(f, j))
  {
    if n == j + 1 {
      NoSideBefore(f, allFeatures, j);
    } else {
      FirstSideIs(f, allFeatures, j, n - 1);
    }
  }

  lemma {:induction false} NoSideBefore(f: Feature, allFeatures: seq<Feature>, n: nat)
    requires n <= 6 && |f.ring| == 7 && |f.neighbors| == 6
    requires forall k :: 0 <= k < n ==> !IsBorderSide(f, allFeatures, k)
    ensures FirstSide(f, allFeatures, n) == None
  {
    if n == 0 {
    } else {
      NoSideBefore(f, allFeatures, n - 1);
    }
  }

  lemma {:induction false} FirstFoundIs(features: seq<Feature>, allFeatures: seq<Feature>)
    requires Hexagons(features) && features != [] && FirstSide(features[0], allFeatures, 6).Some?
    ensures FirstFound(features, allFeatures) == FirstSide(features[0], allFeatures, 6)
  {
    if |features| == 1 {
      assert features[..0] == [];
    } else {
      FirstFoundIs(features[..|features| - 1], allFeatures);
    }
  }

  lemma LaidOutSide(items: seq<string>, rows: nat, allFeatures: seq<Feature>, i: nat, j: nat)
    requires rows >= 2 && LaidOut(items, rows, allFeatures) && i < |items| && j < 6
    ensures var f := allFeatures[i];
            && |f.ring| == 7 && |f.neighbors| == 6
            && f.group == GroupOf(items[i])
            && FeatureSide(f, j) == Side(Center(i, rows), j)
            && (IsBorderSide(f, allFeatures, j)
                <==> Across(Center(i, rows), j) !in Members(items, rows, GroupOf(items[i])))
  {
    BorderSideMeaning(items, rows, allFeatures, i, j);
    assert allFeatures[i] == FeatureAt(items, rows, i);
  }

  lemma LaidOutFirst(items: seq<string>, rows: nat, allFeatures: seq<Feature>, i: nat)
    requires rows >= 2 && LaidOut(items, rows, allFeatures) && i < |items|
    requires forall k :: 0 <= k < i ==> GroupOf(items[k]) != GroupOf(items[i])
    ensures InGroup(allFeatures, GroupOf(items[i])) != []
    ensures InGroup(allFeatures, GroupOf(items[i]))[0] == allFeatures[i]
  {
    forall k | 0 <= k <= i ensures allFeatures[k].group == GroupOf(items[k]) {
      LaidOutSide(items, rows, allFeatures, k, 0);
    }
    InGroupFirst(allFeatures, GroupOf(items[i]), i);
  }

  /** The second side is the first border side found. */
  lemma SecondSideFirst(items: seq<string>, rows: nat, allFeatures: seq<Feature>, i: nat)
    requires rows >= 2 && LaidOut(items, rows, allFeatures) && i < |items|
    requires forall k :: 0 <= k < i ==> GroupOf(items[k]) != GroupOf(items[i])
    requires var members := Members(items, rows, GroupOf(items[i]));
             Across(Center(i, rows), 0) in members && Across(Center(i, rows), 1) !in members
    requires Hexagons(InGroup(allFeatures, GroupOf(items[i])))
    ensures FirstFound(InGroup(allFeatures, GroupOf(items[i])), allFeatures) == Some(Side(Center(i, rows), 1))
  {
    var f := allFeatures[i];
    LaidOutSide(items, rows, allFeatures, i, 0);
    LaidOutSide(items, rows, allFeatures, i, 1);
    LaidOutFirst(items, rows, allFeatures, i);
    FirstSideIs(f, allFeatures, 1, 6);
    FirstFoundIs(InGroup(allFeatures, GroupOf(items[i])), allFeatures);
  }

  // ----- The ring -----

  predicate InRing(i: nat) {
    i == 1 || i == 3 || i == 5 || i == 6 || i == 7 || i == 8
  }

  /** Twelve items, so three rows, of which the group `g` is the ring around item 4. */
  ghost predicate Ringed(items: seq<string>, g: string) {
    |items| == 12 && forall i :: 0 <= i < 12 ==> (GroupOf(items[i]) == g <==> InRing(i))
  }

  lemma SomeRing() returns (items: seq<string>)
    ensures RowsFor(|items|) == 3 && Ringed(items, "a")
  {
    items := ["b", "a", "b", "a", "b", "a", "a", "a", "a", "b", "b", "b"];
    assert "a"[0] != "b"[0];
    assert GroupOf("a") == "a" && GroupOf("b") == "b";
  }

  lemma RingMember(items: seq<string>, g: string, i: nat)
    requires Ringed(items, g) && i < 12
    ensures Center(i, 3) in Members(items, 3, g) <==> InRing(i)
  {
    if Center(i, 3) in Members(items, 3, g) {
      var k :| 0 <= k < |items| && GroupOf(items[k]) == g && Center(k, 3) == Center(i, 3);
      CenterInjective(k, i, 3);
    }
  }

  lemma RingPlaces()
    ensures Center(4, 3) == Point(3, -2)
    ensures Center(1, 3) == Point(1, -2) && Center(3, 3) == Point(2, 0) && Center(5, 3) == Point(2, -4)
    ensures Center(6, 3) == Point(4, 0) && Center(7, 3) == Point(5, -2) && Center(8, 3) == Point(4, -4)
  {
  }

  /** Item 4 is outside of the group, and all around it are members. */
  lemma RingSurrounds(items: seq<string>, g: string)
    requires Ringed(items, g)
    ensures var members := Members(items, 3, g);
            Center(4, 3) !in members && forall h :: Beside(Center(4, 3), h) ==> h in members
  {
    RingPlaces();
    RingMember(items, g, 4);
    RingMember(items, g, 1);
    RingMember(items, g, 3);
    RingMember(items, g, 5);
    RingMember(items, g, 6);
    RingMember(items, g, 7);
    RingMember(items, g, 8);
  }

  lemma RingAcross(items: seq<string>, g: string)
    requires Ringed(items, g)
    ensures Across(Center(1, 3), 0) in Members(items, 3, g)
    ensures Across(Center(1, 3), 1) == Center(4, 3) && Center(4, 3) !in Members(items, 3, g)
  {
    RingPlaces();
    RingMember(items, g, 3);
    RingMember(items, g, 4);
  }

  lemma RingFirst(items: seq<string>, g: string, allFeatures: seq<Feature>)
    requires Ringed(items, g) && LaidOut(items, 3, allFeatures)
    requires Hexagons(InGroup(allFeatures, g))
    ensures FirstFound(InGroup(allFeatures, g), allFeatures) == Some(Side(Center(1, 3), 1))
  {
    RingAcross(items, g);
    assert GroupOf(items[0]) != g && GroupOf(items[1]) == g;
    SecondSideFirst(items, 3, allFeatures, 1);
  }

  /** What `ComputeBorder` draws around the ring is the rim of its hole, and nothing of its
      outside. */
  lemma HoleOnly(items: seq<string>, g: string, allFeatures: seq<Feature>, points: seq<Point>)
    requires Ringed(items, g) && LaidOut(items, 3, allFeatures) && Outline(items, 3, g, points)
    requires Hexagons(InGroup(allFeatures, g))
    requires FirstFound(InGroup(allFeatures, g), allFeatures) == Some(Edge(points[1], points[2]))
    ensures var members := Members(items, 3, g);
            && !NoneEnclosed(members) && !Covers(BorderOf(members), points[1..])
            && forall k :: 0 <= k < |points| - 2 ==> Facing(members, Leg(points[1..], k), Center(4, 3))
  {
    RingSurrounds(items, g);
    RingFirst(items, g, allFeatures);
    RingPlaces();
    RingMember(items, g, 1);
    MembersEven(items, 3, g);
    RimOnly(Members(items, 3, g), points[1..], Center(1, 3), 1);
  }

  lemma RimOnly(members: set<Point>, points: seq<Point>, c: Point, j: nat)
    requires EvenHeights(members) && Cycle(BorderOf(members), points)
    requires j < 6 && c in members && Leg(points, 0) == Side(c, j) && Across(c, j) !in members
    requires forall h :: Beside(Across(c, j), h) ==> h in members
    ensures !NoneEnclosed(members) && !Covers(BorderOf(members), points)
    ensures forall k :: 0 <= k < |points| - 1 ==> Facing(members, Leg(points, k), Across(c, j))
  {
    SurroundedIsEnclosed(members, Across(c, j));
    CycleCoversIff(members, points);
    assert Facing(members, Leg(points, 0), Across(c, j));
    forall k | 0 <= k < |points| - 1 ensures Facing(members, Leg(points, k), Across(c, j)) {
      TrailAroundHole(members, points, Across(c, j), k);
    }
  }
}
