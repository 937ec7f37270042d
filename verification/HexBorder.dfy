/** The outline of a group of hexagons, as a set of directed segments. */
module HexBorder {
  import opened HexGrid

  /** Centers on the chart have even heights, so corners of even and odd number never
      meet. */
  ghost predicate EvenHeights(members: set<Point>) {
    forall c :: c in members ==> c.y % 2 == 0
  }

  /** Sides of member hexagons with no member hexagon on the far side. */
  ghost function BorderOf(members: set<Point>): set<Edge> {
    set c, j | c in members && 0 <= j < 6 && Across(c, j) !in members :: Side(c, j)
  }

  lemma BorderWitness(members: set<Point>, e: Edge) returns (c: Point, j: nat)
    requires e in BorderOf(members)
    ensures c in members && j < 6 && Across(c, j) !in members && Side(c, j) == e
  {
    c, j :| c in members && 0 <= j < 6 && Across(c, j) !in members && Side(c, j) == e;
  }

  /** `e` is a side of the hexagon at `c` that no member shares. */
  ghost predicate BorderSideOf(c: Point, members: set<Point>, e: Edge) {
    exists j :: 0 <= j < 6 && Across(c, j) !in members && Side(c, j) == e
  }

  lemma BorderOwner(members: set<Point>, e: Edge) returns (c: Point)
    requires e in BorderOf(members)
    ensures c in members && BorderSideOf(c, members, e)
  {
    var j;
    c, j := BorderWitness(members, e);
  }

  lemma OwnedInBorder(c: Point, members: set<Point>, e: Edge)
    requires c in members && BorderSideOf(c, members, e)
    ensures e in BorderOf(members)
  {
  }

  /** `e` is a side of some member. */
  ghost predicate SideOfMember(members: set<Point>, e: Edge) {
    exists c, j :: c in members && 0 <= j < 6 && Side(c, j) == e
  }

  /** The border is exactly the member sides that lie on no second member: a shared
      side shows up on its two hexagons in opposite directions. */
  lemma BorderIsUnsharedSides(members: set<Point>, e: Edge)
    ensures e in BorderOf(members) <==>
            SideOfMember(members, e) && !SideOfMember(members, e.Reversed())
  {
    if e in BorderOf(members) {
      var c, j := BorderWitness(members, e);
      if SideOfMember(members, e.Reversed()) {
        var b, k :| b in members && 0 <= k < 6 && Side(b, k) == e.Reversed();
        SideReversed(c, j, b, k);
        assert false;
      }
    } else if SideOfMember(members, e) {
      var c, j :| c in members && 0 <= j < 6 && Side(c, j) == e;
      var b := Across(c, j);
      assert b in members;
      SideReversed(c, j, b, Opposite(j));
      assert Side(b, Opposite(j)) == e.Reversed();
    }
  }

  // ----- Every corner has no border segment, or one in and one out -----

  /** The three hexagons around a corner, in the order in which crossing the side that
      leaves the corner leads from one to the next. */
  function Around(v: Point): (hexes: (Point, Point, Point)) {
    if v.y % 2 == 0 then (Point(v.x, v.y - 2), Point(v.x + 1, v.y), Point(v.x - 1, v.y))
    else (Point(v.x - 1, v.y - 1), Point(v.x + 1, v.y - 1), Point(v.x, v.y + 1))
  }

  /** A border segment leaves `v` exactly when going around `v` steps out of the group. */
  lemma LeavingSegment(members: set<Point>, e: Edge)
    requires EvenHeights(members) && e in BorderOf(members)
    ensures var (a, b, c) := Around(e.start);
            || (a in members && b !in members && e.end == Leave(e.start).0)
            || (b in members && c !in members && e.end == Leave(e.start).1)
            || (c in members && a !in members && e.end == Leave(e.start).2)
  {
    var h, j := BorderWitness(members, e);
  }

  lemma EnteringSegment(members: set<Point>, e: Edge)
    requires EvenHeights(members) && e in BorderOf(members)
    ensures var (a, b, c) := Around(e.end);
            || (a in members && c !in members && e.start == Leave(e.end).2)
            || (b in members && a !in members && e.start == Leave(e.end).0)
            || (c in members && b !in members && e.start == Leave(e.end).1)
  {
    var h, j := BorderWitness(members, e);
  }

  /** The far ends of the three sides that meet at `v`; side `k` separates the `k`-th
      hexagon around `v` from the one after it. */
  function Leave(v: Point): (ends: (Point, Point, Point)) {
    if v.y % 2 == 0 then
      (Point(v.x + 1, v.y - 1), Point(v.x, v.y + 1), Point(v.x - 1, v.y - 1))
    else
      (Point(v.x, v.y - 1), Point(v.x + 1, v.y + 1), Point(v.x - 1, v.y + 1))
  }

  lemma StepOutIsLeaving(members: set<Point>, v: Point)
    requires EvenHeights(members)
    ensures var (a, b, c) := Around(v); var (p, q, r) := Leave(v);
            && (a in members && b !in members ==> Edge(v, p) in BorderOf(members))
            && (b in members && c !in members ==> Edge(v, q) in BorderOf(members))
            && (c in members && a !in members ==> Edge(v, r) in BorderOf(members))
  {
    var (a, b, c) := Around(v);
    var (p, q, r) := Leave(v);
    var j := if v.y % 2 == 0 then 0 else 1;
    assert Side(a, j) == Edge(v, p) && Across(a, j) == b;
    assert Side(b, (j + 4) % 6) == Edge(v, q) && Across(b, (j + 4) % 6) == c;
    assert Side(c, j + 2) == Edge(v, r) && Across(c, j + 2) == a;
  }

  lemma StepInIsEntering(members: set<Point>, v: Point)
    requires EvenHeights(members)
    ensures var (a, b, c) := Around(v); var (p, q, r) := Leave(v);
            && (a in members && c !in members ==> Edge(r, v) in BorderOf(members))
            && (b in members && a !in members ==> Edge(p, v) in BorderOf(members))
            && (c in members && b !in members ==> Edge(q, v) in BorderOf(members))
  {
    var (a, b, c) := Around(v);
    var (p, q, r) := Leave(v);
    var j := if v.y % 2 == 0 then 5 else 0;
    assert Side(a, j) == Edge(r, v) && Across(a, j) == c;
    assert Side(b, (j + 4) % 6) == Edge(p, v) && Across(b, (j + 4) % 6) == a;
    assert Side(c, (j + 2) % 6) == Edge(q, v) && Across(c, (j + 2) % 6) == b;
  }

  /** At most one border segment leaves a corner, and at most one enters it. */
  lemma OneInOneOut(members: set<Point>, e: Edge, f: Edge)
    requires EvenHeights(members) && e in BorderOf(members) && f in BorderOf(members)
    ensures e.start == f.start ==> e == f
    ensures e.end == f.end ==> e == f
    ensures e.start != e.end
  {
    LeavingSegment(members, e);
    LeavingSegment(members, f);
    EnteringSegment(members, e);
    EnteringSegment(members, f);
    var h, j := BorderWitness(members, e);
  }

  /** Where one border segment enters, one leaves, and the other way round. */
  lemma Continues(members: set<Point>, e: Edge) returns (next: Edge, previous: Edge)
    requires EvenHeights(members) && e in BorderOf(members)
    ensures next in BorderOf(members) && next.start == e.end
    ensures previous in BorderOf(members) && previous.end == e.start
  {
    EnteringSegment(members, e);
    StepOutIsLeaving(members, e.end);
    var (a, b, c) := Around(e.end);
    var (p, q, r) := Leave(e.end);
    next := if a in members && b !in members then Edge(e.end, p)
            else if b in members && c !in members then Edge(e.end, q)
            else Edge(e.end, r);
    LeavingSegment(members, e);
    StepInIsEntering(members, e.start);
    var (a', b', c') := Around(e.start);
    var (p', q', r') := Leave(e.start);
    previous := if a' in members && c' !in members then Edge(r', e.start)
                else if b' in members && a' !in members then Edge(p', e.start)
                else Edge(q', e.start);
  }
}
