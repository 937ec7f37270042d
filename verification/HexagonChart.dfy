/** The chart itself: laying items out, grouping them, and tracing a group's border. */
module HexagonChart {
  import opened Wrappers
  import opened HexGrid
  import opened HexBorder
  import opened HexPieces
  import opened HexTrail

  datatype Feature = Feature(ring: seq<Point>, index: nat, group: string, neighbors: seq<int>)

  const DEFAULT_GROUP := "__default__"

  /** An item's group; an empty or missing one counts as the default group. */
  function GroupOf(group: string): string {
    if group == "" then DEFAULT_GROUP else group
  }

  /** No two groups are thrown together but the default one and those without a name. */
  lemma GroupsDiffer(a: string, b: string)
    ensures GroupOf(a) == GroupOf(b)
            <==> a == b || (a == "" && b == "__default__") || (a == "__default__" && b == "")
  {
  }

  function FeatureAt(items: seq<string>, rows: nat, i: nat): Feature
    requires rows > 0 && i < |items|
  {
    Feature(NewHex(Placed(i, rows)), i, GroupOf(items[i]), Neighbors(i, rows))
  }

  ghost predicate Hexagons(features: seq<Feature>) {
    forall f :: f in features ==> |f.ring| == 7 && |f.neighbors| == 6
  }

  /** The features of group `g`, in order. */
  function InGroup(features: seq<Feature>, g: string): seq<Feature> {
    if features == [] then []
    else
      var last := |features| - 1;
      InGroup(features[..last], g) + if features[last].group == g then [features[last]] else []
  }

  lemma InGroupAppend(features: seq<Feature>, f: Feature, g: string)
    ensures InGroup(features + [f], g) == InGroup(features, g) + if f.group == g then [f] else []
  {
    assert (features + [f])[..|features|] == features;
  }

  lemma {:induction false} InGroupMembers(features: seq<Feature>, g: string, f: Feature)
    ensures f in InGroup(features, g) <==> f in features && f.group == g
  {
    if features == [] {
    } else {
      var init, last := features[..|features| - 1], features[|features| - 1];
      assert features == init + [last];
      InGroupMembers(init, g, f);
    }
  }

  ghost predicate LaidOut(items: seq<string>, rows: nat, allFeatures: seq<Feature>)
    requires rows > 0
  {
    |allFeatures| == |items| && forall i :: 0 <= i < |items| ==> allFeatures[i] == FeatureAt(items, rows, i)
  }

  /** A group not seen yet has no features. */
  function FeaturesIn(featuresByGroup: map<string, seq<Feature>>, g: string): seq<Feature> {
    if g in featuresByGroup then featuresByGroup[g] else []
  }

  /** Each group's features in item order, and each group listed once. */
  ghost predicate Grouped(featuresByGroup: map<string, seq<Feature>>, orderedGroups: seq<string>,
                          allFeatures: seq<Feature>)
  {
    && (forall g :: FeaturesIn(featuresByGroup, g) == InGroup(allFeatures, g))
    && (forall g :: g in featuresByGroup ==> featuresByGroup[g] != [])
    && (forall g :: g in featuresByGroup <==> g in orderedGroups)
    && (forall i, j :: 0 <= i < j < |orderedGroups| ==> orderedGroups[i] != orderedGroups[j])
  }

  method AddFeature(featuresByGroup: map<string, seq<Feature>>, orderedGroups: seq<string>,
                    ghost allFeatures: seq<Feature>, hex: Feature)
    returns (featuresByGroup': map<string, seq<Feature>>, orderedGroups': seq<string>)
    requires Grouped(featuresByGroup, orderedGroups, allFeatures)
    ensures Grouped(featuresByGroup', orderedGroups', allFeatures + [hex])
  {
    var g := hex.group;
    orderedGroups' := if g !in featuresByGroup then orderedGroups + [g] else orderedGroups;
    featuresByGroup' := featuresByGroup[g := FeaturesIn(featuresByGroup, g) + [hex]];
    forall h ensures FeaturesIn(featuresByGroup', h) == InGroup(allFeatures + [hex], h) {
      InGroupAppend(allFeatures, hex, h);
    }
  }

  /** The placement loop. Items are given by their group names. */
  method Layout(items: seq<string>)
    returns (rows: nat, featuresByGroup: map<string, seq<Feature>>,
             allFeatures: seq<Feature>, orderedGroups: seq<string>)
    ensures 2 <= rows == RowsFor(|items|)
    ensures LaidOut(items, rows, allFeatures)
    ensures Grouped(featuresByGroup, orderedGroups, allFeatures)
  {
    featuresByGroup, allFeatures, orderedGroups := map[], [], [];
    rows := RowsFor(|items|);
    var index := 0;
    while index < |items|
      invariant index <= |items| && |allFeatures| == index
      invariant forall i :: 0 <= i < index ==> allFeatures[i] == FeatureAt(items, rows, i)
      invariant Grouped(featuresByGroup, orderedGroups, allFeatures)
    {
      var hex := FeatureAt(items, rows, index);
      featuresByGroup, orderedGroups := AddFeature(featuresByGroup, orderedGroups, allFeatures, hex);
      allFeatures := allFeatures + [hex];
      index := index + 1;
    }
  }

  // ----- Which sides become segments -----

  /** Nothing drawn on the far side, or something of another group. */
  predicate IsBorderSide(f: Feature, allFeatures: seq<Feature>, j: nat)
    requires j < |f.neighbors|
  {
    var n := f.neighbors[j];
    !(0 <= n < |allFeatures|) || f.group != allFeatures[n].group
  }

  function FeatureSide(f: Feature, j: nat): Edge
    requires j < 6 && |f.ring| == 7
  {
    Edge(f.ring[j], f.ring[j + 1])
  }

  /** `e` is found among the first `n` sides of `f`. */
  ghost predicate FoundOn(f: Feature, allFeatures: seq<Feature>, n: nat, e: Edge)
    requires n <= 6 && |f.ring| == 7 && |f.neighbors| == 6
  {
    exists j :: 0 <= j < n && IsBorderSide(f, allFeatures, j) && FeatureSide(f, j) == e
  }

  /** `e` is found on one of the features. */
  ghost predicate Found(features: seq<Feature>, allFeatures: seq<Feature>, e: Edge)
    requires Hexagons(features)
  {
    exists f :: f in features && FoundOn(f, allFeatures, 6, e)
  }

  /** Centers of the items in group `g`. */
  ghost function Members(items: seq<string>, rows: nat, g: string): set<Point>
    requires rows > 0
  {
    set i | 0 <= i < |items| && GroupOf(items[i]) == g :: Center(i, rows)
  }

  lemma MembersEven(items: seq<string>, rows: nat, g: string)
    requires rows > 0
    ensures EvenHeights(Members(items, rows, g))
  {
  }

  lemma BorderSideMeaning(items: seq<string>, rows: nat, allFeatures: seq<Feature>, i: nat, j: nat)
    requires rows >= 2 && LaidOut(items, rows, allFeatures) && i < |items| && j < 6
    ensures var f := FeatureAt(items, rows, i); var c := Center(i, rows);
            && FeatureSide(f, j) == Side(c, j)
            && (IsBorderSide(f, allFeatures, j) <==> Across(c, j) !in Members(items, rows, f.group))
  {
    var f := FeatureAt(items, rows, i);
    var c, n := Center(i, rows), f.neighbors[j];
    DrawnSideIsSide(i, rows, j);
    if 0 <= n < |items| {
      NeighborShares(i, rows, j);
      if GroupOf(items[n]) == f.group {
        assert Center(n, rows) in Members(items, rows, f.group);
      }
    }
    if Across(c, j) in Members(items, rows, f.group) {
      var k :| 0 <= k < |items| && GroupOf(items[k]) == f.group && Center(k, rows) == Across(c, j);
      AcrossIsNeighbor(i, k, rows, j);
    }
  }

  lemma FoundOnMeaning(items: seq<string>, rows: nat, allFeatures: seq<Feature>, i: nat, e: Edge)
    requires rows >= 2 && LaidOut(items, rows, allFeatures) && i < |items|
    ensures FoundOn(FeatureAt(items, rows, i), allFeatures, 6, e)
            <==> BorderSideOf(Center(i, rows), Members(items, rows, GroupOf(items[i])), e)
  {
    forall j | 0 <= j < 6
      ensures var f, c := FeatureAt(items, rows, i), Center(i, rows);
              && FeatureSide(f, j) == Side(c, j)
              && (IsBorderSide(f, allFeatures, j) <==> Across(c, j) !in Members(items, rows, f.group))
    {
      BorderSideMeaning(items, rows, allFeatures, i, j);
    }
  }

  /** Collecting over a group's features finds the group's border, once each feature
      with center `centers[i]` finds its own part of it. */
  lemma FoundIsBorder(centers: seq<Point>, members: set<Point>, features: seq<Feature>,
                      allFeatures: seq<Feature>, g: string, e: Edge)
    requires |centers| == |allFeatures| && Hexagons(allFeatures)
    requires forall f :: f in features <==> f in allFeatures && f.group == g
    requires forall c ::
               c in members <==> exists i :: 0 <= i < |centers| && allFeatures[i].group == g && centers[i] == c
    requires forall i :: 0 <= i < |centers| && allFeatures[i].group == g ==>
               (FoundOn(allFeatures[i], allFeatures, 6, e) <==> BorderSideOf(centers[i], members, e))
    ensures Hexagons(features)
    ensures Found(features, allFeatures, e) <==> e in BorderOf(members)
  {
    if e in BorderOf(members) {
      var c := BorderOwner(members, e);
      var i :| 0 <= i < |centers| && allFeatures[i].group == g && centers[i] == c;
      assert allFeatures[i] in features;
    }
    if Found(features, allFeatures, e) {
      var f :| f in features && FoundOn(f, allFeatures, 6, e);
      var i :| 0 <= i < |centers| && allFeatures[i] == f;
      OwnedInBorder(centers[i], members, e);
    }
  }

  /** A group with a member has a segment: nothing lies right of its last member. */
  lemma NonEmptyGroupHasBorder(items: seq<string>, rows: nat, g: string, i: nat)
    requires rows >= 2 && i < |items| && GroupOf(items[i]) == g
    ensures BorderOf(Members(items, rows, g)) != {}
    decreases |items| - i
  {
    var c := Center(i, rows);
    if Across(c, 1) in Members(items, rows, g) {
      var k :| 0 <= k < |items| && GroupOf(items[k]) == g && Center(k, rows) == Across(c, 1);
      AcrossIsNeighbor(i, k, rows, 1);
      NonEmptyGroupHasBorder(items, rows, g, k);
    } else {
      assert Side(c, 1) in BorderOf(Members(items, rows, g));
    }
  }

  // ----- Collecting segments by end point -----

  function KeysAt(keysByPoint: map<Point, seq<Edge>>, p: Point): seq<Edge> {
    if p in keysByPoint then keysByPoint[p] else []
  }

  /** Every segment in play is filed under its two end points, and nothing else is. */
  ghost predicate Indexed(segments: set<Edge>, keysByPoint: map<Point, seq<Edge>>) {
    forall p, e :: e in KeysAt(keysByPoint, p) <==> e in segments && Touches(e, p)
  }

  /** The first border side among the first n sides of a feature. */
  function FirstSide(f: Feature, allFeatures: seq<Feature>, n: nat): Option<Edge>
    requires n <= 6 && |f.ring| == 7 && |f.neighbors| == 6
  {
    if n == 0 then None
    else
      var earlier := FirstSide(f, allFeatures, n - 1);
      if earlier.Some? then earlier
      else if IsBorderSide(f, allFeatures, n - 1) then Some(FeatureSide(f, n - 1)) else None
  }

  /** The first border side of the features, in their order. */
  ghost function FirstFound(features: seq<Feature>, allFeatures: seq<Feature>): Option<Edge>
    requires Hexagons(features)
  {
    if features == [] then None
    else
      var last := |features| - 1;
      var earlier := FirstFound(features[..last], allFeatures);
      if earlier.Some? then earlier else FirstSide(features[last], allFeatures, 6)
  }

  /** First half of `computeBorder`: one segment per border side, filed under both of
      its end points. A segment stands for its own key. */
  method CollectSegments(features: seq<Feature>, allFeatures: seq<Feature>)
    returns (segments: set<Edge>, keysByPoint: map<Point, seq<Edge>>, first: Option<Edge>)
    requires Hexagons(features)
    ensures forall e :: e in segments <==> Found(features, allFeatures, e)
    ensures Indexed(segments, keysByPoint)
    ensures first.None? <==> segments == {}
    ensures first.Some? ==> first.value in segments
    ensures first == FirstFound(features, allFeatures)
  {
    segments, keysByPoint, first := {}, map[], None;
    for i := 0 to |features|
      invariant forall e :: e in segments <==> Found(features[..i], allFeatures, e)
      invariant Indexed(segments, keysByPoint)
      invariant if first.None? then segments == {} else first.value in segments
      invariant first == FirstFound(features[..i], allFeatures)
    {
      var f := features[i];
      ghost var earlier := first;
      ghost var before := segments;
      for j := 0 to 6
        invariant forall e :: e in segments <==> e in before || FoundOn(f, allFeatures, j, e)
        invariant Indexed(segments, keysByPoint)
        invariant if first.None? then segments == {} else first.value in segments
        invariant first == if earlier.Some? then earlier else FirstSide(f, allFeatures, j)
      {
        if IsBorderSide(f, allFeatures, j) {
          var seg := FeatureSide(f, j);
          segments, keysByPoint := AddSegment(segments, keysByPoint, seg);
          if first.None? {
            first := Some(seg);
          }
        }
      }
      assert features[..i + 1] == features[..i] + [f];
    }
    assert features[..|features|] == features;
  }

  /** `(segmentKeysByPoint[p] ||= []).push(key)`. */
  function Push(keysByPoint: map<Point, seq<Edge>>, p: Point, key: Edge): (r: map<Point, seq<Edge>>)
    ensures forall q, e :: e in KeysAt(r, q) <==> e in KeysAt(keysByPoint, q) || (q == p && e == key)
  {
    keysByPoint[p := KeysAt(keysByPoint, p) + [key]]
  }

  /** Files one segment under its start and its end. */
  method AddSegment(segments: set<Edge>, keysByPoint: map<Point, seq<Edge>>, seg: Edge)
    returns (segments': set<Edge>, keysByPoint': map<Point, seq<Edge>>)
    requires Indexed(segments, keysByPoint)
    ensures segments' == segments + {seg}
    ensures Indexed(segments', keysByPoint')
  {
    keysByPoint' := Push(keysByPoint, seg.start, seg);
    keysByPoint' := Push(keysByPoint', seg.end, seg);
    segments' := segments + {seg};
  }

  /** `removeCurrentSegment`: the keys other than the current one. */
  function Without(keys: seq<Edge>, key: Edge): (r: seq<Edge>)
    ensures forall e :: e in r <==> e in keys && e != key
  {
    if keys == [] then []
    else (if keys[0] != key then [keys[0]] else []) + Without(keys[1..], key)
  }

  // ----- Tracing -----

  /** `segmentKeysByPoint[p] = removeCurrentSegment(segmentKeysByPoint[p], current)`. */
  function Remove(keysByPoint: map<Point, seq<Edge>>, p: Point, key: Edge): (r: map<Point, seq<Edge>>)
    requires p in keysByPoint
    ensures forall q, e :: e in KeysAt(r, q) <==> e in KeysAt(keysByPoint, q) && !(q == p && e == key)
    ensures r.Keys == keysByPoint.Keys
  {
    keysByPoint[p := Without(keysByPoint[p], key)]
  }

  /** Drops a drawn segment from the lists of its two end points. */
  method Refile(ghost segments: set<Edge>, keysByPoint: map<Point, seq<Edge>>, seg: Edge)
    returns (keysByPoint': map<Point, seq<Edge>>)
    requires Indexed(segments, keysByPoint)
    requires seg.start in keysByPoint && seg.end in keysByPoint
    ensures Indexed(segments - {seg}, keysByPoint') && keysByPoint'.Keys == keysByPoint.Keys
  {
    keysByPoint' := Remove(keysByPoint, seg.start, seg);
    ghost var middle := keysByPoint';
    keysByPoint' := Remove(keysByPoint', seg.end, seg);
    forall p, e ensures e in KeysAt(keysByPoint', p) <==> e in KeysAt(keysByPoint, p) && e != seg {
      assert e in KeysAt(middle, p) <==> e in KeysAt(keysByPoint, p) && !(p == seg.start && e == seg);
      assert seg in KeysAt(keysByPoint, p) ==> Touches(seg, p);
    }
  }

  /** Takes the current segment out of play and looks up the next one at its far end;
      the far end is the start if the walk came from the end. */
  method TakeSegment(segments: set<Edge>, keysByPoint: map<Point, seq<Edge>>, seg: Edge, prevPoint: Option<Point>)
    returns (segments': set<Edge>, keysByPoint': map<Point, seq<Edge>>, far: Point, next: Option<Edge>)
    requires Indexed(segments, keysByPoint)
    requires seg.start in keysByPoint && seg.end in keysByPoint
    ensures segments' == segments - {seg}
    ensures Indexed(segments', keysByPoint') && keysByPoint'.Keys == keysByPoint.Keys
    ensures far == if prevPoint == Some(seg.end) then seg.start else seg.end
    ensures next.None? ==> forall e :: e in segments' ==> !Touches(e, far)
    ensures next.Some? ==> next.value in segments' && Touches(next.value, far)
  {
    segments' := segments - {seg};
    keysByPoint' := Refile(segments, keysByPoint, seg);
    far := if prevPoint == Some(seg.end) then seg.start else seg.end;
    var left := keysByPoint'[far];
    assert left == KeysAt(keysByPoint', far);
    next := if left != [] && left[0] in segments' then Some(left[0]) else None;
  }

  /** One forward step: a segment found at the far end continues the trail, and if none
      is found the trail has closed. */
  lemma NextStep(members: set<Point>, points: seq<Point>, seg: Edge, segments: set<Edge>, next: Option<Edge>)
    requires EvenHeights(members) && points != []
    requires Trail(BorderOf(members), points)
    requires seg in BorderOf(members) && seg.start == points[|points| - 1] && !OnTrail(points, seg)
    requires forall e :: e in segments <==> e in BorderOf(members) && !OnTrail(points, e) && e != seg
    requires next.None? ==> forall e :: e in segments ==> !Touches(e, seg.end)
    requires next.Some? ==> next.value in segments && Touches(next.value, seg.end)
    ensures Trail(BorderOf(members), points + [seg.end])
    ensures forall e :: e in segments <==> e in BorderOf(members) && !OnTrail(points + [seg.end], e)
    ensures next.Some? ==> next.value.start == seg.end
    ensures next.None? ==> Cycle(BorderOf(members), points + [seg.end])
    ensures seg.start != seg.end
  {
    OneInOneOut(members, seg, seg);
    TrailExtends(BorderOf(members), points, seg.end);
    if next.Some? {
      OnlyLeaving(members, points + [seg.end], next.value);
    } else {
      var following, _ := Continues(members, seg);
      TrailCloses(members, points + [seg.end], following);
    }
  }

  /** The segments in play while `points` has been drawn. */
  ghost predicate InPlay(border: set<Edge>, points: seq<Point>, segments: set<Edge>) {
    && Trail(border, points)
    && forall e :: e in segments <==> e in border && !OnTrail(points, e)
  }

  /** The way forward, from the start of the first segment along the border; `current`
      leaves the last point drawn. */
  ghost predicate Forward(border: set<Edge>, first: Edge, points: seq<Point>, segments: set<Edge>,
                          current: Option<Edge>, prevPoint: Option<Point>)
  {
    && points != [] && points[0] == first.start && InPlay(border, points, segments)
    && (|points| > 1 ==> points[1] == first.end)
    && current.Some? && current.value in segments && current.value.start == points[|points| - 1]
    && prevPoint == (if |points| == 1 then None else Some(current.value.start))
    && (|points| == 1 ==> current.value == first)
  }

  /** The border is drawn, and the walk goes back to the first segment once. */
  ghost predicate Back(border: set<Edge>, first: Edge, cycle: seq<Point>, points: seq<Point>, segments: set<Edge>,
                       current: Option<Edge>, prevPoint: Option<Point>)
  {
    && Cycle(border, cycle) && cycle[0] == first.start && cycle[1] == first.end
    && InPlay(border, cycle, segments)
    && (current.Some? ==> points == cycle && current == Some(first) && prevPoint == Some(first.start))
    && (current.None? ==> points == [first.end] + cycle)
  }

  /** What the loop makes of the segment that it finds at the far end. */
  lemma ForwardStep(members: set<Point>, first: Edge, points: seq<Point>, segments: set<Edge>, seg: Edge,
                    prevPoint: Option<Point>, next: Option<Edge>)
    requires EvenHeights(members) && Forward(BorderOf(members), first, points, segments, Some(seg), prevPoint)
    requires next.None? ==> forall e :: e in segments - {seg} ==> !Touches(e, seg.end)
    requires next.Some? ==> next.value in segments - {seg} && Touches(next.value, seg.end)
    ensures next.Some? ==>
              Forward(BorderOf(members), first, points + [seg.end], segments - {seg}, next, Some(seg.end))
    ensures next.None? ==>
              Back(BorderOf(members), first, points + [seg.end], points + [seg.end], segments - {seg},
                   Some(first), Some(first.start))
  {
    NextStep(members, points, seg, segments - {seg}, next);
  }

  /** Nothing is left at the start of the first segment, so the walk back ends there. */
  lemma BackStep(members: set<Point>, first: Edge, cycle: seq<Point>, segments: set<Edge>, next: Option<Edge>)
    requires Back(BorderOf(members), first, cycle, cycle, segments, Some(first), Some(first.start))
    requires next.Some? ==> next.value in segments - {first} && Touches(next.value, first.end)
    ensures next.None?
    ensures segments - {first} == segments
    ensures Back(BorderOf(members), first, cycle, [first.end] + cycle, segments, next, Some(first.end))
  {
    assert Leg(cycle, 0) == first;
    assert OnTrail(cycle, first);
  }

  lemma SegmentIsFiled(segments: set<Edge>, keysByPoint: map<Point, seq<Edge>>, e: Edge)
    requires Indexed(segments, keysByPoint) && e in segments
    ensures e.start in keysByPoint && e.end in keysByPoint
  {
    assert e in KeysAt(keysByPoint, e.start) && e in KeysAt(keysByPoint, e.end);
  }

  /** Second half of `computeBorder`. The list starts with the end of the first segment
      once more; after that point it is one closed cycle. */
  method TraceBorder(ghost members: set<Point>, segments0: set<Edge>,
                     keysByPoint0: map<Point, seq<Edge>>, first: Edge)
    returns (points: seq<Point>)
    requires EvenHeights(members) && segments0 == BorderOf(members)
    requires Indexed(segments0, keysByPoint0) && first in segments0
    ensures |points| >= 4 && points[0] == first.end
    ensures points[1] == first.start && points[2] == first.end
    ensures Cycle(BorderOf(members), points[1..])
  {
    ghost var border := segments0;
    var segments, keysByPoint := segments0, keysByPoint0;
    points := [];
    var prevPoint: Option<Point> := None;
    var current := Some(first);
    points := points + [first.start];
    var reversed := false;
    ghost var cycle := points;
    while current.Some?
      invariant Indexed(segments, keysByPoint) && keysByPoint.Keys == keysByPoint0.Keys
      invariant current.Some? ==> current.value in border
      invariant !reversed ==> cycle == points && Forward(border, first, points, segments, current, prevPoint)
      invariant reversed ==> Back(border, first, cycle, points, segments, current, prevPoint)
      decreases !reversed, |segments|, current.Some?
    {
      var seg := current.value;
      ghost var before, prevBefore := segments, prevPoint;
      SegmentIsFiled(segments0, keysByPoint0, seg);
      OneInOneOut(members, seg, seg);
      var far;
      segments, keysByPoint, far, current := TakeSegment(segments, keysByPoint, seg, prevPoint);
      prevPoint := Some(far);
      if reversed {
        BackStep(members, first, cycle, before, current);
        points := [far] + points;
      } else {
        ForwardStep(members, first, points, before, seg, prevBefore, current);
        points := points + [far];
        cycle := points;
        if current.None? {
          reversed := true;
          current := Some(first);
          prevPoint := Some(first.start);
        }
      }
    }
    assert points[1..] == cycle;
  }

  /** What is drawn around group `g`: one closed cycle of distinct border segments,
      after a first point that repeats the end of the first segment. */
  ghost predicate Outline(items: seq<string>, rows: nat, g: string, points: seq<Point>)
    requires rows > 0
  {
    |points| >= 4 && points[0] == points[2] && Cycle(BorderOf(Members(items, rows, g)), points[1..])
  }

  /** `computeBorder` for one group of a laid-out chart. */
  method ComputeBorder(ghost items: seq<string>, ghost rows: nat, ghost g: string,
                       features: seq<Feature>, allFeatures: seq<Feature>)
    returns (points: seq<Point>)
    requires rows >= 2 && LaidOut(items, rows, allFeatures)
    requires features == InGroup(allFeatures, g) && features != []
    ensures Outline(items, rows, g, points)
    ensures Hexagons(features) && FirstFound(features, allFeatures) == Some(Edge(points[1], points[2]))
    ensures var members := Members(items, rows, g);
            Covers(BorderOf(members), points[1..]) <==> InOnePiece(members)
  {
    GroupBorder(items, rows, g, features, allFeatures);
    ghost var members := Members(items, rows, g);
    var segments, keysByPoint, first := CollectSegments(features, allFeatures);
    assert segments == BorderOf(members);
    points := TraceBorder(members, segments, keysByPoint, first.value);
    CycleCoversIff(members, points[1..]);
  }

  lemma FoundInGroup(items: seq<string>, rows: nat, g: string, features: seq<Feature>, allFeatures: seq<Feature>)
    requires rows >= 2 && LaidOut(items, rows, allFeatures)
    requires forall f :: f in features <==> f in allFeatures && f.group == g
    ensures Hexagons(features)
    ensures forall e :: Found(features, allFeatures, e) <==> e in BorderOf(Members(items, rows, g))
  {
    var centers := seq(|items|, i requires 0 <= i < |items| => Center(i, rows));
    var members := Members(items, rows, g);
    assert forall i :: 0 <= i < |items| ==> allFeatures[i].group == GroupOf(items[i]);
    forall e ensures Hexagons(features) && (Found(features, allFeatures, e) <==> e in BorderOf(members)) {
      forall i | 0 <= i < |centers| && allFeatures[i].group == g
        ensures FoundOn(allFeatures[i], allFeatures, 6, e) <==> BorderSideOf(centers[i], members, e)
      {
        FoundOnMeaning(items, rows, allFeatures, i, e);
      }
      FoundIsBorder(centers, members, features, allFeatures, g, e);
    }
  }

  lemma GroupBorder(items: seq<string>, rows: nat, g: string, features: seq<Feature>, allFeatures: seq<Feature>)
    requires rows >= 2 && LaidOut(items, rows, allFeatures)
    requires features == InGroup(allFeatures, g) && features != []
    ensures Hexagons(features)
    ensures forall e :: Found(features, allFeatures, e) <==> e in BorderOf(Members(items, rows, g))
    ensures EvenHeights(Members(items, rows, g)) && BorderOf(Members(items, rows, g)) != {}
  {
    forall f ensures f in features <==> f in allFeatures && f.group == g {
      InGroupMembers(allFeatures, g, f);
    }
    FoundInGroup(items, rows, g, features, allFeatures);
    assert features[0] in features;
    var i :| 0 <= i < |items| && allFeatures[i] == features[0];
    assert GroupOf(items[i]) == g;
    NonEmptyGroupHasBorder(items, rows, g, i);
    MembersEven(items, rows, g);
  }

  /** Draws one more border. */
  method AddBorder(ghost items: seq<string>, ghost rows: nat, ghost g: string,
                   features: seq<Feature>, allFeatures: seq<Feature>, borders: seq<seq<Point>>)
    returns (borders': seq<seq<Point>>)
    requires rows >= 2 && LaidOut(items, rows, allFeatures)
    requires features == InGroup(allFeatures, g) && features != []
    ensures |borders'| == |borders| + 1 && borders'[..|borders|] == borders
    ensures Outline(items, rows, g, borders'[|borders|])
  {
    var points := ComputeBorder(items, rows, g, features, allFeatures);
    borders' := borders + [points];
  }

  /** The borders drawn for a chart, one per group in order of first appearance. */
  method Borders(items: seq<string>) returns (groups: seq<string>, borders: seq<seq<Point>>)
    ensures forall g :: g in groups <==> exists i :: 0 <= i < |items| && GroupOf(items[i]) == g
    ensures |borders| == |groups|
    ensures forall k :: 0 <= k < |groups| ==> Outline(items, RowsFor(|items|), groups[k], borders[k])
  {
    var rows, featuresByGroup, allFeatures, orderedGroups := Layout(items);
    groups, borders := orderedGroups, [];
    forall g ensures g in groups <==> exists i :: 0 <= i < |items| && GroupOf(items[i]) == g {
      GroupDrawn(items, rows, featuresByGroup, orderedGroups, allFeatures, g);
    }
    for k := 0 to |groups|
      invariant |borders| == k
      invariant forall l :: 0 <= l < k ==> Outline(items, rows, groups[l], borders[l])
    {
      var g := groups[k];
      ghost var before := borders;
      borders := AddBorder(items, rows, g, featuresByGroup[g], allFeatures, borders);
      assert forall l :: 0 <= l < k ==> borders[l] == before[l];
    }
  }

  lemma GroupDrawn(items: seq<string>, rows: nat, featuresByGroup: map<string, seq<Feature>>,
                   orderedGroups: seq<string>, allFeatures: seq<Feature>, g: string)
    requires rows >= 2 && LaidOut(items, rows, allFeatures)
    requires Grouped(featuresByGroup, orderedGroups, allFeatures)
    ensures g in orderedGroups <==> exists i :: 0 <= i < |items| && GroupOf(items[i]) == g
    ensures g in featuresByGroup ==> featuresByGroup[g] == InGroup(allFeatures, g)
  {
    assert FeaturesIn(featuresByGroup, g) == InGroup(allFeatures, g);
    if g in featuresByGroup {
      InGroupMembers(allFeatures, g, featuresByGroup[g][0]);
    }
    if i :| 0 <= i < |items| && GroupOf(items[i]) == g {
      InGroupMembers(allFeatures, g, allFeatures[i]);
    }
  }
}
