/** Polylines along a border: when they close, and how much of the border they cover. */
module HexTrail {
  import opened HexGrid
  import opened HexBorder
  import opened HexPieces

  predicate Touches(e: Edge, p: Point) {
    e.start == p || e.end == p
  }

  /** Segment `k` of the polyline. */
  function Leg(points: seq<Point>, k: int): Edge
    requires 0 <= k < |points| - 1
  {
    Edge(points[k], points[k + 1])
  }

  /** The polyline's legs are distinct segments of the border. */
  ghost predicate Trail(border: set<Edge>, points: seq<Point>) {
    && (forall k :: 0 <= k < |points| - 1 ==> Leg(points, k) in border)
    && (forall k, l :: 0 <= k < l < |points| - 1 ==> Leg(points, k) != Leg(points, l))
  }

  ghost predicate OnTrail(points: seq<Point>, e: Edge) {
    exists k :: 0 <= k < |points| - 1 && Leg(points, k) == e
  }

  /** A trail that comes back to where it starts; then it also misses no segment at
      any corner it visits. */
  ghost predicate Cycle(border: set<Edge>, points: seq<Point>) {
    && |points| >= 3
    && points[0] == points[|points| - 1]
    && Trail(border, points)
    && (forall e, k :: e in border && 0 <= k < |points| && Touches(e, points[k]) ==> OnTrail(points, e))
  }

  /** Extending a trail by an unused segment. */
  lemma TrailExtends(border: set<Edge>, points: seq<Point>, p: Point)
    requires Trail(border, points) && points != []
    requires Edge(points[|points| - 1], p) in border && !OnTrail(points, Edge(points[|points| - 1], p))
    ensures Trail(border, points + [p])
    ensures forall e :: OnTrail(points + [p], e) <==> OnTrail(points, e) || e == Edge(points[|points| - 1], p)
  {
    var ps, n := points + [p], |points|;
    assert forall k :: 0 <= k < n - 1 ==> Leg(ps, k) == Leg(points, k);
    assert Leg(ps, n - 1) == Edge(points[n - 1], p);
    assert forall e :: OnTrail(points, e) ==> OnTrail(ps, e) by {
      forall e | OnTrail(points, e) ensures OnTrail(ps, e) {
        var k :| 0 <= k < n - 1 && Leg(points, k) == e;
        assert Leg(ps, k) == e;
      }
    }
  }

  /** When the segment leaving the end of a trail is used already, it is the first one:
      any other used segment is preceded by the one segment entering its corner. */
  lemma TrailCloses(members: set<Point>, points: seq<Point>, next: Edge)
    requires EvenHeights(members) && |points| >= 2
    requires Trail(BorderOf(members), points)
    requires next in BorderOf(members) && next.start == points[|points| - 1] && OnTrail(points, next)
    ensures Cycle(BorderOf(members), points)
  {
    var border, n := BorderOf(members), |points|;
    var k :| 0 <= k < n - 1 && Leg(points, k) == next;
    if k > 0 {
      OneInOneOut(members, Leg(points, k - 1), Leg(points, n - 2));
      assert false;
    }
    OneInOneOut(members, next, next);
    forall e, k | e in border && 0 <= k < n && Touches(e, points[k]) ensures OnTrail(points, e) {
      var entering, leaving := if k == 0 then n - 2 else k - 1, if k == n - 1 then 0 else k;
      OneInOneOut(members, e, Leg(points, entering));
      OneInOneOut(members, e, Leg(points, leaving));
    }
  }

  /** The segments not drawn yet that touch the end of the trail all leave it. */
  lemma OnlyLeaving(members: set<Point>, points: seq<Point>, e: Edge)
    requires EvenHeights(members) && |points| >= 2
    requires Trail(BorderOf(members), points)
    requires e in BorderOf(members) && !OnTrail(points, e) && Touches(e, points[|points| - 1])
    ensures e.start == points[|points| - 1]
  {
    OneInOneOut(members, e, Leg(points, |points| - 2));
  }

  // ----- What a closed outline covers -----

  /** Every segment of the border is drawn. */
  ghost predicate Covers(border: set<Edge>, points: seq<Point>) {
    forall e :: e in border ==> OnTrail(points, e)
  }

  ghost function Legs(points: seq<Point>): set<Edge> {
    set k | 0 <= k < |points| - 1 :: Leg(points, k)
  }

  lemma LegBeforeAndAfter(border: set<Edge>, points: seq<Point>, k: nat) returns (before: Edge, after: Edge)
    requires Cycle(border, points) && k < |points| - 1
    ensures before in Legs(points) && before.end == points[k]
    ensures after in Legs(points) && after.start == points[k + 1]
  {
    var n := |points|;
    var b, a := if k == 0 then n - 2 else k - 1, if k == n - 2 then 0 else k + 1;
    before, after := Leg(points, b), Leg(points, a);
  }

  lemma LegsEnterAndLeave(border: set<Edge>, points: seq<Point>, v: Point)
    requires Cycle(border, points)
    ensures Leaves(Legs(points), v) <==> Enters(Legs(points), v)
  {
    if k :| 0 <= k < |points| - 1 && Leg(points, k).start == v {
      var before, _ := LegBeforeAndAfter(border, points, k);
    }
    if k :| 0 <= k < |points| - 1 && Leg(points, k).end == v {
      var _, after := LegBeforeAndAfter(border, points, k);
    }
  }

  /** The legs of a closed outline go on wherever they come to. */
  lemma CycleGoesOn(members: set<Point>, points: seq<Point>)
    requires Cycle(BorderOf(members), points)
    ensures GoesOn(members, Legs(points))
  {
    forall v ensures Leaves(Legs(points), v) <==> Enters(Legs(points), v) {
      LegsEnterAndLeave(BorderOf(members), points, v);
    }
  }

  /** Around a group in one piece a closed outline misses nothing. */
  lemma CycleCovers(members: set<Point>, points: seq<Point>)
    requires EvenHeights(members) && InOnePiece(members) && Cycle(BorderOf(members), points)
    ensures Covers(BorderOf(members), points)
  {
    CycleGoesOn(members, points);
    assert Leg(points, 0) in Legs(points);
    forall f | f in BorderOf(members) ensures OnTrail(points, f) {
      PartIsWhole(members, Legs(points), Leg(points, 0), f);
    }
  }

  /** All legs of a trail have linked members inside of them, and hexagons outside that
      escape together: a trail never leaves its piece, and never changes between the
      outside of the group and a hole, or between holes. */
  lemma {:induction false} TrailStaysTogether(
    members: set<Point>, points: seq<Point>, k: nat, c: Point, j: nat, d: Point, i: nat)
    requires EvenHeights(members) && Trail(BorderOf(members), points) && k < |points| - 1
    requires j < 6 && i < 6 && Side(c, j) == Leg(points, 0) && Side(d, i) == Leg(points, k)
    ensures c in members && Across(c, j) !in members && d in members && Across(d, i) !in members
    ensures Linked(members, c, d)
    ensures Escapes(members, Across(c, j)) <==> Escapes(members, Across(d, i))
  {
    OnBorder(members, c, j);
    OnBorder(members, d, i);
    if k == 0 {
      SideInjective(c, j, d, i);
      LinkedSelf(members, c);
    } else {
      var b, l := BorderWitness(members, Leg(points, k - 1));
      TrailStaysTogether(members, points, k - 1, c, j, b, l);
      TurnsTogether(members, b, l, d, i);
      LinkedTrans(members, c, b, d);
    }
  }

  /** If all is drawn, any two border segments agree in this way. */
  lemma CoveredTogether(members: set<Point>, points: seq<Point>, c: Point, j: nat, d: Point, i: nat)
    requires EvenHeights(members) && Trail(BorderOf(members), points) && Covers(BorderOf(members), points)
    requires j < 6 && i < 6 && Side(c, j) in BorderOf(members) && Side(d, i) in BorderOf(members)
    ensures Linked(members, c, d)
    ensures Escapes(members, Across(c, j)) <==> Escapes(members, Across(d, i))
  {
    var k :| 0 <= k < |points| - 1 && Leg(points, k) == Side(c, j);
    var l :| 0 <= l < |points| - 1 && Leg(points, l) == Side(d, i);
    var b, m := BorderWitness(members, Leg(points, 0));
    TrailStaysTogether(members, points, k, b, m, c, j);
    TrailStaysTogether(members, points, l, b, m, d, i);
    LinkedBack(members, b, c);
    LinkedTrans(members, c, b, d);
  }

  lemma CoveredIsConnected(members: set<Point>, points: seq<Point>)
    requires EvenHeights(members) && Trail(BorderOf(members), points) && Covers(BorderOf(members), points)
    ensures Connected(members)
  {
    forall a, b | a in members && b in members ensures Linked(members, a, b) {
      var last := Rightmost(members);
      var c := LeaveRight(members, a, last);
      var d := LeaveRight(members, b, last);
      OnBorder(members, c, 1);
      OnBorder(members, d, 1);
      CoveredTogether(members, points, c, 1, d, 1);
      LinkedBack(members, b, d);
      LinkedTrans(members, a, c, d);
      LinkedTrans(members, a, d, b);
    }
  }

  lemma CoveredEnclosesNone(members: set<Point>, points: seq<Point>)
    requires members != {}
    requires EvenHeights(members) && Trail(BorderOf(members), points) && Covers(BorderOf(members), points)
    ensures NoneEnclosed(members)
  {
    var last := Rightmost(members);
    EscapesRight(members, Across(last, 1));
    OnBorder(members, last, 1);
    forall h | h !in members ensures Escapes(members, h) {
      if !Escapes(members, h) {
        var x := EnterRight(members, h, last);
        SideTurned(x, 1);
        OnBorder(members, Across(x, 1), 4);
        CoveredTogether(members, points, last, 1, Across(x, 1), 4);
      }
    }
  }

  /** A closed outline covers the whole border if and only if the group hangs together and
      encloses no hexagon outside of it. */
  lemma CycleCoversIff(members: set<Point>, points: seq<Point>)
    requires EvenHeights(members) && Cycle(BorderOf(members), points)
    ensures Covers(BorderOf(members), points) <==> InOnePiece(members)
  {
    if InOnePiece(members) {
      CycleCovers(members, points);
    }
    if Covers(BorderOf(members), points) {
      assert Leg(points, 0) in BorderOf(members);
      CoveredIsConnected(members, points);
      CoveredEnclosesNone(members, points);
    }
  }

  /** A trail that starts around a hole of a single hexagon stays around it. */
  lemma {:induction false} TrailAroundHole(members: set<Point>, points: seq<Point>, hole: Point, k: nat)
    requires EvenHeights(members) && Trail(BorderOf(members), points) && k < |points| - 1
    requires hole !in members && forall h :: Beside(hole, h) ==> h in members
    requires Facing(members, Leg(points, 0), hole)
    ensures Facing(members, Leg(points, k), hole)
  {
    if k == 0 {
    } else {
      TrailAroundHole(members, points, hole, k - 1);
      var c, j := FacingSide(members, Leg(points, k - 1), hole);
      var d, i := BorderWitness(members, Leg(points, k));
      SideAtCorner(c, j);
      SideAtCorner(d, i);
      CornerTouches(Side(d, i).start, hole, Across(d, i));
    }
  }

  /** The segment lies between a member and the hexagon `h` outside of the group. */
  ghost predicate Facing(members: set<Point>, e: Edge, h: Point) {
    exists c, j :: c in members && 0 <= j < 6 && Side(c, j) == e && Across(c, j) == h
  }

  lemma FacingSide(members: set<Point>, e: Edge, h: Point) returns (c: Point, j: nat)
    requires Facing(members, e, h)
    ensures c in members && j < 6 && Side(c, j) == e && Across(c, j) == h
  {
    c, j :| c in members && 0 <= j < 6 && Side(c, j) == e && Across(c, j) == h;
  }
}
