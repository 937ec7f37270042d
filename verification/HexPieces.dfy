/** Groups in several pieces and groups with holes: which parts of a border hang together. */
module HexPieces {
  import opened HexGrid
  import opened HexBorder

  // ----- Sides seen from both hexagons -----

  lemma SideTurned(c: Point, j: nat)
    requires j < 6
    ensures Across(Across(c, j), Opposite(j)) == c
    ensures Side(Across(c, j), Opposite(j)) == Side(c, j).Reversed()
  {
    SideReversed(Across(c, j), Opposite(j), c, j);
  }

  /** A side is a border segment exactly between a member inside and none outside. */
  lemma SideOnBorder(members: set<Point>, c: Point, j: nat)
    requires j < 6
    ensures Side(c, j) in BorderOf(members) <==> c in members && Across(c, j) !in members
    ensures Side(c, j).Reversed() in BorderOf(members) <==> c !in members && Across(c, j) in members
  {
    OnBorder(members, c, j);
    SideTurned(c, j);
    OnBorder(members, Across(c, j), Opposite(j));
  }

  lemma OnBorder(members: set<Point>, c: Point, j: nat)
    requires j < 6
    ensures Side(c, j) in BorderOf(members) <==> c in members && Across(c, j) !in members
  {
    if Side(c, j) in BorderOf(members) {
      var b, k := BorderWitness(members, Side(c, j));
      SideInjective(c, j, b, k);
    }
  }

  // ----- Pieces and holes -----

  predicate Beside(a: Point, b: Point) {
    || b == Across(a, 0) || b == Across(a, 1) || b == Across(a, 2)
    || b == Across(a, 3) || b == Across(a, 4) || b == Across(a, 5)
  }

  /** From hexagon to neighboring hexagon. */
  ghost predicate Way(p: seq<Point>) {
    p != [] && forall i :: 0 <= i < |p| - 1 ==> Beside(p[i], p[i + 1])
  }

  ghost predicate WayInside(members: set<Point>, p: seq<Point>) {
    Way(p) && forall c :: c in p ==> c in members
  }

  ghost predicate WayOutside(members: set<Point>, p: seq<Point>) {
    Way(p) && forall c :: c in p ==> c !in members
  }

  /** A way through the group leads from `a` to `b`. */
  ghost predicate Linked(members: set<Point>, a: Point, b: Point) {
    exists p :: WayInside(members, p) && p[0] == a && p[|p| - 1] == b
  }

  /** To the right of the whole group. */
  ghost predicate RightOf(members: set<Point>, h: Point) {
    forall c :: c in members ==> c.x < h.x
  }

  /** A way around the group leads from `h` to its right. */
  ghost predicate Escapes(members: set<Point>, h: Point) {
    exists p :: WayOutside(members, p) && p[0] == h && RightOf(members, p[|p| - 1])
  }

  ghost predicate Connected(members: set<Point>) {
    forall a, b :: a in members && b in members ==> Linked(members, a, b)
  }

  ghost predicate NoneEnclosed(members: set<Point>) {
    forall h :: h !in members ==> Escapes(members, h)
  }

  /** The group hangs together and encloses nothing else. */
  ghost predicate InOnePiece(members: set<Point>) {
    Connected(members) && NoneEnclosed(members)
  }

  lemma LinkedSelf(members: set<Point>, a: Point)
    requires a in members
    ensures Linked(members, a, a)
  {
    assert WayInside(members, [a]);
  }

  lemma BesideBack(a: Point, b: Point)
    requires Beside(a, b)
    ensures Beside(b, a)
  {
  }

  /** One more hexagon in front. */
  lemma LinkedFront(members: set<Point>, a: Point, b: Point, c: Point)
    requires a in members && Beside(a, b) && Linked(members, b, c)
    ensures Linked(members, a, c)
  {
    var p :| WayInside(members, p) && p[0] == b && p[|p| - 1] == c;
    var q := [a] + p;
    assert forall i :: 0 < i < |q| ==> q[i] == p[i - 1];
    assert WayInside(members, q);
  }

  lemma LinkedNext(members: set<Point>, a: Point, b: Point)
    requires a in members && b in members && Beside(a, b)
    ensures Linked(members, a, b)
  {
    LinkedSelf(members, b);
    LinkedFront(members, a, b, b);
  }

  lemma LinkedTrans(members: set<Point>, a: Point, b: Point, c: Point)
    requires Linked(members, a, b) && Linked(members, b, c)
    ensures Linked(members, a, c)
  {
    var p :| WayInside(members, p) && p[0] == a && p[|p| - 1] == b;
    LinkedAlong(members, p, c);
  }

  lemma {:induction false} LinkedAlong(members: set<Point>, p: seq<Point>, c: Point)
    requires WayInside(members, p) && Linked(members, p[|p| - 1], c)
    ensures Linked(members, p[0], c)
  {
    if |p| == 1 {
    } else {
      assert WayInside(members, p[1..]);
      LinkedAlong(members, p[1..], c);
      LinkedFront(members, p[0], p[1], c);
    }
  }

  lemma LinkedBack(members: set<Point>, a: Point, b: Point)
    requires Linked(members, a, b)
    ensures Linked(members, b, a)
  {
    var p :| WayInside(members, p) && p[0] == a && p[|p| - 1] == b;
    LinkedReturns(members, p);
  }

  lemma {:induction false} LinkedReturns(members: set<Point>, p: seq<Point>)
    requires WayInside(members, p)
    ensures Linked(members, p[|p| - 1], p[0])
  {
    if |p| == 1 {
      LinkedSelf(members, p[0]);
    } else {
      assert WayInside(members, p[1..]);
      LinkedReturns(members, p[1..]);
      BesideBack(p[0], p[1]);
      LinkedNext(members, p[1], p[0]);
      LinkedTrans(members, p[|p| - 1], p[1], p[0]);
    }
  }

  /** Neighbors outside the group escape together. */
  lemma EscapesNext(members: set<Point>, a: Point, b: Point)
    requires a !in members && Beside(a, b) && Escapes(members, b)
    ensures Escapes(members, a)
  {
    var p :| WayOutside(members, p) && p[0] == b && RightOf(members, p[|p| - 1]);
    var q := [a] + p;
    assert forall i :: 0 < i < |q| ==> q[i] == p[i - 1];
    assert WayOutside(members, q) && q[|q| - 1] == p[|p| - 1];
  }

  lemma EscapesRight(members: set<Point>, h: Point)
    requires RightOf(members, h)
    ensures Escapes(members, h)
  {
    assert WayOutside(members, [h]);
  }

  /** The last member to the right. */
  lemma {:induction false} Rightmost(members: set<Point>) returns (c: Point)
    requires members != {}
    ensures c in members && forall d :: d in members ==> d.x <= c.x
    decreases |members|
  {
    c :| c in members;
    var others := members - {c};
    if others == {} {
      assert members == {c};
    } else {
      var d := Rightmost(others);
      assert members == others + {c};
      c := if d.x > c.x then d else c;
    }
  }

  /** Going right through the group ends at a member with none beside it. */
  lemma {:induction false} LeaveRight(members: set<Point>, a: Point, last: Point) returns (c: Point)
    requires a in members && forall d :: d in members ==> d.x <= last.x
    ensures Linked(members, a, c) && c in members && Across(c, 1) !in members
    decreases last.x - a.x
  {
    if Across(a, 1) in members {
      c := LeaveRight(members, Across(a, 1), last);
      LinkedFront(members, a, Across(a, 1), c);
    } else {
      c := a;
      LinkedSelf(members, a);
    }
  }

  /** Going right from an enclosed hexagon ends beside a member. */
  lemma {:induction false} EnterRight(members: set<Point>, h: Point, last: Point) returns (x: Point)
    requires h !in members && !Escapes(members, h) && forall d :: d in members ==> d.x <= last.x
    ensures x !in members && !Escapes(members, x) && Across(x, 1) in members
    decreases last.x - h.x
  {
    var next := Across(h, 1);
    if next in members {
      x := h;
    } else if h.x > last.x {
      EscapesRight(members, h);
    } else {
      if Escapes(members, next) {
        EscapesNext(members, h, next);
      }
      x := EnterRight(members, next, last);
    }
  }

  /** No way around the group leads on from a hexagon with members all around it. */
  lemma SurroundedWay(members: set<Point>, h: Point, p: seq<Point>)
    requires Way(p) && p[0] == h && forall b :: Beside(h, b) ==> b in members
    ensures !(WayOutside(members, p) && RightOf(members, p[|p| - 1]))
  {
    if |p| == 1 {
      assert Beside(h, Across(h, 1)) && Across(h, 1).x > h.x;
    } else {
      assert Beside(h, p[1]) && p[1] in p;
    }
  }

  lemma SurroundedIsEnclosed(members: set<Point>, h: Point)
    requires forall b :: Beside(h, b) ==> b in members
    ensures !Escapes(members, h)
  {
    forall p | Way(p) && p[0] == h ensures !(WayOutside(members, p) && RightOf(members, p[|p| - 1])) {
      SurroundedWay(members, h, p);
    }
  }

  // ----- Turning a corner -----

  predicate AtCorner(v: Point, h: Point) {
    var (x, y, z) := Around(v);
    h == x || h == y || h == z
  }

  /** The hexagons on both sides of a side are at both of its corners. */
  lemma SideAtCorner(c: Point, j: nat)
    requires j < 6 && c.y % 2 == 0
    ensures AtCorner(Side(c, j).start, c) && AtCorner(Side(c, j).end, c)
    ensures AtCorner(Side(c, j).start, Across(c, j)) && AtCorner(Side(c, j).end, Across(c, j))
  {
  }

  /** Any two hexagons at a corner touch. */
  lemma CornerTouches(v: Point, a: Point, b: Point)
    requires AtCorner(v, a) && AtCorner(v, b)
    ensures a == b || (Beside(a, b) && Beside(b, a))
  {
  }

  lemma LinkedAtCorner(members: set<Point>, v: Point, a: Point, b: Point)
    requires AtCorner(v, a) && AtCorner(v, b) && a in members && b in members
    ensures Linked(members, a, b)
  {
    CornerTouches(v, a, b);
    if a == b {
      LinkedSelf(members, a);
    } else {
      LinkedNext(members, a, b);
    }
  }

  lemma EscapesAtCorner(members: set<Point>, v: Point, a: Point, b: Point)
    requires AtCorner(v, a) && AtCorner(v, b) && a !in members && Escapes(members, b)
    ensures Escapes(members, a)
  {
    CornerTouches(v, a, b);
    if a != b {
      EscapesNext(members, a, b);
    }
  }

  /** Where one border segment follows another, the hexagons inside of them are linked, and
      those outside escape together. */
  lemma TurnsTogether(members: set<Point>, c: Point, j: nat, d: Point, k: nat)
    requires EvenHeights(members) && j < 6 && k < 6
    requires c in members && Across(c, j) !in members && d in members && Across(d, k) !in members
    requires Side(c, j).end == Side(d, k).start
    ensures Linked(members, c, d)
    ensures Escapes(members, Across(c, j)) <==> Escapes(members, Across(d, k))
  {
    var v := Side(c, j).end;
    SideAtCorner(c, j);
    SideAtCorner(d, k);
    LinkedAtCorner(members, v, c, d);
    if Escapes(members, Across(d, k)) {
      EscapesAtCorner(members, v, Across(c, j), Across(d, k));
    }
    if Escapes(members, Across(c, j)) {
      EscapesAtCorner(members, v, Across(d, k), Across(c, j));
    }
  }

  // ----- Parts of a border -----

  /** How often a part of the border runs along a segment, less how often against it. */
  ghost function Net(part: set<Edge>, e: Edge): int {
    (if e in part then 1 else 0) - (if e.Reversed() in part then 1 else 0)
  }

  ghost predicate BalancedAt(part: set<Edge>, v: Point) {
    var (p, q, r) := Leave(v);
    Net(part, Edge(v, p)) + Net(part, Edge(v, q)) + Net(part, Edge(v, r)) == 0
  }

  /** As much enters every corner as leaves it. */
  ghost predicate Balanced(part: set<Edge>) {
    forall v :: BalancedAt(part, v)
  }

  ghost predicate Leaves(part: set<Edge>, v: Point) {
    exists e :: e in part && e.start == v
  }

  ghost predicate Enters(part: set<Edge>, v: Point) {
    exists e :: e in part && e.end == v
  }

  /** A part of the border that goes on wherever it comes to. */
  ghost predicate GoesOn(members: set<Point>, part: set<Edge>) {
    part <= BorderOf(members) && forall v :: Leaves(part, v) <==> Enters(part, v)
  }

  lemma LeavingCount(members: set<Point>, part: set<Edge>, v: Point)
    requires EvenHeights(members) && part <= BorderOf(members)
    ensures var (p, q, r) := Leave(v);
            (if Edge(v, p) in part then 1 else 0) + (if Edge(v, q) in part then 1 else 0)
            + (if Edge(v, r) in part then 1 else 0) == if Leaves(part, v) then 1 else 0
  {
    var (p, q, r) := Leave(v);
    if Leaves(part, v) {
      var e :| e in part && e.start == v;
      LeavingSegment(members, e);
      assert e == Edge(v, p) || e == Edge(v, q) || e == Edge(v, r);
      forall f | f in part && f.start == v ensures f == e {
        OneInOneOut(members, e, f);
      }
    }
  }

  lemma EnteringCount(members: set<Point>, part: set<Edge>, v: Point)
    requires EvenHeights(members) && part <= BorderOf(members)
    ensures var (p, q, r) := Leave(v);
            (if Edge(p, v) in part then 1 else 0) + (if Edge(q, v) in part then 1 else 0)
            + (if Edge(r, v) in part then 1 else 0) == if Enters(part, v) then 1 else 0
  {
    var (p, q, r) := Leave(v);
    if Enters(part, v) {
      var e :| e in part && e.end == v;
      EnteringSegment(members, e);
      assert e == Edge(p, v) || e == Edge(q, v) || e == Edge(r, v);
      forall f | f in part && f.end == v ensures f == e {
        OneInOneOut(members, e, f);
      }
    }
  }

  lemma PartIsBalanced(members: set<Point>, part: set<Edge>)
    requires EvenHeights(members) && GoesOn(members, part)
    ensures Balanced(part)
  {
    forall v ensures BalancedAt(part, v) {
      LeavingCount(members, part, v);
      EnteringCount(members, part, v);
    }
  }

  // ----- A height for every hexagon -----

  ghost predicate Bounded(part: set<Edge>, bound: int) {
    forall e :: e in part ==> e.start.x <= bound && e.end.x <= bound
  }

  /** How much of the part a look to the right crosses, upwards less downwards. */
  ghost function Potential(part: set<Edge>, bound: int, h: Point): int
    decreases bound - h.x
  {
    if h.x >= bound then 0 else Net(part, Side(h, 1)) + Potential(part, bound, Across(h, 1))
  }

  lemma DropRight(part: set<Edge>, bound: int, h: Point)
    requires Bounded(part, bound)
    ensures Potential(part, bound, h) - Potential(part, bound, Across(h, 1)) == Net(part, Side(h, 1))
  {
  }

  /** Across the upper and the lower right side, by the corner between them and the right
      side. */
  lemma {:induction false} DropUpRight(part: set<Edge>, bound: int, h: Point)
    requires Bounded(part, bound) && Balanced(part) && h.y % 2 == 0
    ensures Potential(part, bound, h) - Potential(part, bound, Across(h, 0)) == Net(part, Side(h, 0))
    decreases bound - h.x
  {
    if h.x >= bound {
    } else {
      var v := Corner(h, 1);
      DropRight(part, bound, h);
      DropDownRight(part, bound, Across(h, 0));
      assert BalancedAt(part, v);
      assert Across(Across(h, 0), 2) == Across(h, 1);
    }
  }

  lemma {:induction false} DropDownRight(part: set<Edge>, bound: int, h: Point)
    requires Bounded(part, bound) && Balanced(part) && h.y % 2 == 0
    ensures Potential(part, bound, h) - Potential(part, bound, Across(h, 2)) == Net(part, Side(h, 2))
    decreases bound - h.x
  {
    if h.x >= bound {
    } else {
      var v := Corner(h, 2);
      DropRight(part, bound, h);
      DropUpRight(part, bound, Across(h, 2));
      assert BalancedAt(part, v);
      assert Across(Across(h, 2), 0) == Across(h, 1);
    }
  }

  lemma DropLeft(part: set<Edge>, bound: int, h: Point, j: nat)
    requires 3 <= j < 6
    requires var g := Across(h, j);
             Potential(part, bound, g) - Potential(part, bound, Across(g, j - 3)) == Net(part, Side(g, j - 3))
    ensures Potential(part, bound, h) - Potential(part, bound, Across(h, j)) == Net(part, Side(h, j))
  {
    SideTurned(h, j);
  }

  /** Crossing a side changes the height by what runs along it. */
  lemma Drop(part: set<Edge>, bound: int, h: Point, j: nat)
    requires Bounded(part, bound) && Balanced(part) && h.y % 2 == 0 && j < 6
    ensures Potential(part, bound, h) - Potential(part, bound, Across(h, j)) == Net(part, Side(h, j))
  {
    var g := Across(h, j);
    match j {
      case 0 => DropUpRight(part, bound, h);
      case 1 => DropRight(part, bound, h);
      case 2 => DropDownRight(part, bound, h);
      case 3 => DropUpRight(part, bound, g); DropLeft(part, bound, h, j);
      case 4 => DropRight(part, bound, g); DropLeft(part, bound, h, j);
      case 5 => DropDownRight(part, bound, g); DropLeft(part, bound, h, j);
    }
  }

  lemma SideBetween(a: Point, b: Point) returns (j: nat)
    requires Beside(a, b)
    ensures j < 6 && b == Across(a, j)
  {
    j := if b == Across(a, 0) then 0 else if b == Across(a, 1) then 1 else if b == Across(a, 2) then 2
         else if b == Across(a, 3) then 3 else if b == Across(a, 4) then 4 else 5;
  }

  lemma NothingAlong(members: set<Point>, part: set<Edge>, a: Point, j: nat)
    requires part <= BorderOf(members) && j < 6 && (a in members <==> Across(a, j) in members)
    ensures Net(part, Side(a, j)) == 0
  {
    SideOnBorder(members, a, j);
  }

  lemma AcrossEven(a: Point, j: nat)
    requires j < 6
    ensures Across(a, j).y % 2 == a.y % 2
  {
  }

  /** Between two hexagons on the same side of the border nothing runs. */
  lemma NoDrop(members: set<Point>, part: set<Edge>, bound: int, a: Point, b: Point)
    requires Bounded(part, bound) && Balanced(part) && part <= BorderOf(members)
    requires a.y % 2 == 0 && Beside(a, b) && (a in members <==> b in members)
    ensures Potential(part, bound, a) == Potential(part, bound, b) && b.y % 2 == 0
  {
    var j := SideBetween(a, b);
    NothingAlong(members, part, a, j);
    Drop(part, bound, a, j);
    AcrossEven(a, j);
  }

  lemma {:induction false} LevelInside(members: set<Point>, part: set<Edge>, bound: int, p: seq<Point>)
    requires Bounded(part, bound) && Balanced(part) && part <= BorderOf(members)
    requires EvenHeights(members) && WayInside(members, p)
    ensures Potential(part, bound, p[0]) == Potential(part, bound, p[|p| - 1])
  {
    if |p| == 1 {
    } else {
      assert WayInside(members, p[1..]);
      LevelInside(members, part, bound, p[1..]);
      NoDrop(members, part, bound, p[0], p[1]);
    }
  }

  lemma {:induction false} LevelRight(members: set<Point>, part: set<Edge>, bound: int, h: Point)
    requires part <= BorderOf(members) && RightOf(members, h)
    ensures Potential(part, bound, h) == 0
    decreases bound - h.x
  {
    if h.x >= bound {
    } else {
      SideOnBorder(members, h, 1);
      LevelRight(members, part, bound, Across(h, 1));
    }
  }

  lemma {:induction false} LevelOutside(members: set<Point>, part: set<Edge>, bound: int, p: seq<Point>)
    requires Bounded(part, bound) && Balanced(part) && part <= BorderOf(members)
    requires WayOutside(members, p) && p[0].y % 2 == 0 && RightOf(members, p[|p| - 1])
    ensures Potential(part, bound, p[0]) == 0
  {
    if |p| == 1 {
      LevelRight(members, part, bound, p[0]);
    } else {
      assert WayOutside(members, p[1..]);
      NoDrop(members, part, bound, p[0], p[1]);
      LevelOutside(members, part, bound, p[1..]);
    }
  }

  /** On either side of a border segment: what runs along it is the height inside. */
  lemma HeightInside(members: set<Point>, part: set<Edge>, bound: int, c: Point, j: nat)
    requires Bounded(part, bound) && Balanced(part) && part <= BorderOf(members) && EvenHeights(members)
    requires j < 6 && c in members && Across(c, j) !in members && Escapes(members, Across(c, j))
    ensures Potential(part, bound, c) == if Side(c, j) in part then 1 else 0
  {
    var p :| WayOutside(members, p) && p[0] == Across(c, j) && RightOf(members, p[|p| - 1]);
    LevelOutside(members, part, bound, p);
    SideOnBorder(members, c, j);
    Drop(part, bound, c, j);
  }

  lemma SameHeight(members: set<Point>, part: set<Edge>, bound: int, c: Point, d: Point)
    requires Bounded(part, bound) && Balanced(part) && part <= BorderOf(members)
    requires EvenHeights(members) && Linked(members, c, d)
    ensures Potential(part, bound, c) == Potential(part, bound, d)
  {
    var p :| WayInside(members, p) && p[0] == c && p[|p| - 1] == d;
    LevelInside(members, part, bound, p);
  }

  lemma PartHolds(members: set<Point>, part: set<Edge>, bound: int, c: Point, j: nat, d: Point, k: nat)
    requires Bounded(part, bound) && Balanced(part) && part <= BorderOf(members) && EvenHeights(members)
    requires j < 6 && c in members && Across(c, j) !in members && Escapes(members, Across(c, j))
    requires k < 6 && d in members && Across(d, k) !in members && Escapes(members, Across(d, k))
    requires Linked(members, c, d)
    ensures Side(c, j) in part <==> Side(d, k) in part
  {
    SameHeight(members, part, bound, c, d);
    HeightInside(members, part, bound, c, j);
    HeightInside(members, part, bound, d, k);
  }

  lemma PartHoldsBoth(members: set<Point>, part: set<Edge>, last: Point, c: Point, j: nat, d: Point, k: nat)
    requires EvenHeights(members) && InOnePiece(members) && GoesOn(members, part)
    requires forall h :: h in members ==> h.x <= last.x
    requires j < 6 && c in members && Across(c, j) !in members
    requires k < 6 && d in members && Across(d, k) !in members
    ensures Side(c, j) in part <==> Side(d, k) in part
  {
    assert Linked(members, c, d);
    assert Escapes(members, Across(c, j)) && Escapes(members, Across(d, k));
    PartIsBalanced(members, part);
    PartIsBounded(members, part, last);
    PartHolds(members, part, last.x + 1, c, j, d, k);
  }

  /** In a group in one piece no part of the border goes on by itself. */
  lemma PartIsWhole(members: set<Point>, part: set<Edge>, e: Edge, f: Edge)
    requires EvenHeights(members) && InOnePiece(members) && GoesOn(members, part)
    requires e in part && f in BorderOf(members)
    ensures f in part
  {
    var c, j := BorderWitness(members, e);
    var d, k := BorderWitness(members, f);
    var last := Rightmost(members);
    PartHoldsBoth(members, part, last, c, j, d, k);
  }

  lemma PartIsBounded(members: set<Point>, part: set<Edge>, last: Point)
    requires part <= BorderOf(members) && forall d :: d in members ==> d.x <= last.x
    ensures Bounded(part, last.x + 1)
  {
    forall e | e in part ensures e.start.x <= last.x + 1 && e.end.x <= last.x + 1 {
      var c, j := BorderWitness(members, e);
    }
  }
}
