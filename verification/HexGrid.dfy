/** Geometry of the hexagon chart: where item `i` is drawn, which corners it has,
    and which items the chart calls its neighbors. */
module HexGrid {

  datatype Point = Point(x: int, y: int)

  /** A border segment `[p1, p2]`; its direction matters. */
  datatype Edge = Edge(start: Point, end: Point) {
    function Reversed(): Edge {
      Edge(end, start)
    }
  }

  /** Rows that fit the 100-unit chart, `floor(100 / (1.5 * radius))`, for the radius
      chosen by item count. */
  function RowsFor(itemCount: nat): (rows: nat)
    ensures 2 <= rows <= 9
  {
    if itemCount <= 11 then 200 / (3 * 26)
    else if itemCount <= 24 then 200 / (3 * 19)
    else if itemCount <= 40 then 200 / (3 * 15)
    else if itemCount <= 96 then 200 / (3 * 10)
    else if itemCount <= 207 then 200 / (3 * 7)
    else 200 / (3 * 15)
  }

  /** The radius chosen by item count. */
  function RadiusFor(itemCount: nat): nat {
    if itemCount <= 11 then 26
    else if itemCount <= 24 then 19
    else if itemCount <= 40 then 15
    else if itemCount <= 96 then 10
    else if itemCount <= 207 then 7
    else 15
  }

  /** The rows are as many as fit, each one and a half radii high. */
  lemma RowsFit(itemCount: nat)
    ensures 3 * RadiusFor(itemCount) * RowsFor(itemCount) <= 200 < 3 * RadiusFor(itemCount) * (RowsFor(itemCount) + 1)
    ensures RowsFor(itemCount)
            == if itemCount <= 11 then 2 else if itemCount <= 24 then 3 else if itemCount <= 40 then 4
               else if itemCount <= 96 then 6 else if itemCount <= 207 then 9 else 4
  {
  }

  // ----- Placement and corners -----

  function CeilDiv(a: nat, b: nat): nat
    requires b > 0
  {
    if a % b == 0 then a / b else a / b + 1
  }

  /** Column and row handed to `NewHex` for the item at `index`. */
  function Placed(index: nat, rows: nat): Point
    requires rows > 0
  {
    var half := (index % rows - 1) / 2;
    var increment := if half > 0 then half else 0;
    Point(CeilDiv(index, rows) + increment, -(index % rows))
  }

  /** The closed ring of corners, first corner repeated at the end. */
  function NewHex(d: Point): (ring: seq<Point>)
    ensures |ring| == 7 && ring[6] == ring[0]
  {
    var x := 2 * d.x + d.y;
    var y := 2 * d.y;
    [Point(x, y + 2), Point(x + 1, y + 1), Point(x + 1, y), Point(x, y - 1),
     Point(x - 1, y), Point(x - 1, y + 1), Point(x, y + 2)]
  }

  /** Six candidate item indices, clockwise from the upper right; an entry outside
      the item list means nothing is drawn there. */
  function Neighbors(d: nat, rows: nat): (n: seq<int>)
    requires rows > 0
    ensures |n| == 6
  {
    var shift := rows * (d % rows % 2);
    var n := [d - 1 + shift, d + rows, d + 1 + shift,
              d + 1 - rows + shift, d - rows, d - 1 - rows + shift];
    if d % rows == rows - 1 then n[2 := -1][3 := -1]
    else if d % rows == 0 then n[0 := -1][5 := -1]
    else n
  }

  /** Side `j` of the item at `index`, as `[ring[j], ring[j + 1]]`. */
  function DrawnSide(index: nat, rows: nat, j: nat): Edge
    requires rows > 0 && j < 6
  {
    var ring := NewHex(Placed(index, rows));
    Edge(ring[j], ring[j + 1])
  }

  // ----- The same picture in plane coordinates -----

  /** Center of the item at `index`: rows go down in steps of two and odd rows are
      shifted half a hexagon to the right. */
  function Center(index: nat, rows: nat): Point
    requires rows > 0
  {
    CellCenter(index / rows, index % rows)
  }

  /** Corner `j` of the hexagon centered at `c`, clockwise from the top. */
  function Corner(c: Point, j: nat): Point
    requires j <= 6
  {
    match j
    case 1 => Point(c.x + 1, c.y + 1)
    case 2 => Point(c.x + 1, c.y)
    case 3 => Point(c.x, c.y - 1)
    case 4 => Point(c.x - 1, c.y)
    case 5 => Point(c.x - 1, c.y + 1)
    case _ => Point(c.x, c.y + 2)
  }

  function Side(c: Point, j: nat): Edge
    requires j < 6
  {
    Edge(Corner(c, j), Corner(c, j + 1))
  }

  /** Center of the hexagon on the far side of side `j`. */
  function Across(c: Point, j: nat): Point
    requires j < 6
  {
    match j
    case 0 => Point(c.x + 1, c.y + 2)
    case 1 => Point(c.x + 2, c.y)
    case 2 => Point(c.x + 1, c.y - 2)
    case 3 => Point(c.x - 1, c.y - 2)
    case 4 => Point(c.x - 2, c.y)
    case 5 => Point(c.x - 1, c.y + 2)
  }

  function Opposite(j: nat): nat {
    (j + 3) % 6
  }

  /** The placement arithmetic draws each item around `Center`. */
  lemma DrawnSideIsSide(index: nat, rows: nat, j: nat)
    requires rows > 0 && j < 6
    ensures DrawnSide(index, rows, j) == Side(Center(index, rows), j)
  {
    var r := index % rows;
    var d := Placed(index, rows);
    assert 2 * d.x + d.y == 2 * (index / rows) + r % 2;
  }

  // ----- Index arithmetic -----

  lemma DivModUnique(n: nat, rows: nat, q: int, r: int)
    requires rows > 0 && 0 <= r < rows && n == q * rows + r
    ensures n / rows == q && n % rows == r
  {
    var q', r' := n / rows, n % rows;
    assert n == rows * q' + r';
    if q' < q {
      assert rows * (q - q') >= rows by { MulMono(q - q', rows); }
      assert false;
    } else if q' > q {
      assert rows * (q' - q) >= rows by { MulMono(q' - q, rows); }
      assert false;
    }
  }

  lemma DivModIdentity(n: nat, rows: nat)
    requires rows > 0
    ensures 0 <= n % rows < rows && n == n / rows * rows + n % rows
  {
  }

  lemma CellInjective(q: int, r: int, col: int, row: int)
    requires CellCenter(q, r) == CellCenter(col, row)
    ensures q == col && r == row
  {
  }

  lemma MulMono(k: int, rows: int)
    requires k >= 1 && rows > 0
    ensures rows * k >= rows
  {
  }

  lemma CenterInjective(a: nat, b: nat, rows: nat)
    requires rows > 0
    requires Center(a, rows) == Center(b, rows)
    ensures a == b
  {
    CellInjective(a / rows, a % rows, b / rows, b % rows);
    DivModIdentity(a, rows);
    DivModIdentity(b, rows);
  }

  /** Column and row on the far side of side `j` of the hexagon at (`col`, `row`). */
  function SlotCell(col: int, row: nat, j: nat): (cell: (int, int))
    requires j < 6
    ensures Across(CellCenter(col, row), j) == CellCenter(cell.0, cell.1)
  {
    var p := row % 2;
    match j
    case 0 => (col + p, row - 1)
    case 1 => (col + 1, row)
    case 2 => (col + p, row + 1)
    case 3 => (col + p - 1, row + 1)
    case 4 => (col - 1, row)
    case 5 => (col + p - 1, row - 1)
  }

  function CellCenter(col: int, row: int): Point {
    Point(2 * col + row % 2, -2 * row)
  }

  lemma Distribute(col: int, rows: int)
    ensures (col + 1) * rows == col * rows + rows
    ensures (col - 1) * rows == col * rows - rows
  {
  }

  lemma ParityTimes(row: nat, rows: nat)
    ensures rows * (row % 2) == if row % 2 == 0 then 0 else rows
  {
  }

  /** What a slot holds between the edges, with the shift of odd rows worked out. */
  function SlotTarget(d: nat, row: nat, rows: nat, j: nat): int {
    var shift := if row % 2 == 0 then 0 else rows;
    if j == 0 then d - 1 + shift
    else if j == 1 then d + rows
    else if j == 2 then d + 1 + shift
    else if j == 3 then d + 1 - rows + shift
    else if j == 4 then d - rows
    else d - 1 - rows + shift
  }

  predicate AtEdge(row: nat, rows: nat, j: nat) {
    (row == rows - 1 && (j == 2 || j == 3)) || (row == 0 && (j == 0 || j == 5))
  }

  lemma SlotEntry(d: nat, rows: nat, j: nat)
    requires rows >= 2 && j < 6
    ensures Neighbors(d, rows)[j] == if AtEdge(d % rows, rows, j) then -1 else SlotTarget(d, d % rows, rows, j)
  {
    ParityTimes(d % rows, rows);
  }

  function CellNumber(cell: (int, int), rows: nat): int {
    cell.0 * rows + cell.1
  }

  /** The number of the cell on the far side of a side. */
  lemma SlotNumber(col: nat, row: nat, rows: nat, j: nat)
    requires row < rows && rows >= 2 && j < 6
    ensures var cell := SlotCell(col, row, j);
            && -1 <= cell.1 <= rows && (AtEdge(row, rows, j) <==> cell.1 == -1 || cell.1 == rows)
            && CellNumber(cell, rows) == SlotTarget(col * rows + row, row, rows, j)
  {
    Distribute(col, rows);
  }

  lemma SlotValueAt(d: nat, col: nat, row: nat, rows: nat, j: nat)
    requires rows >= 2 && j < 6 && row < rows && d == col * rows + row && row == d % rows
    ensures var cell := SlotCell(col, row, j);
            && -1 <= cell.1 <= rows
            && Neighbors(d, rows)[j] == if 0 <= cell.1 < rows then CellNumber(cell, rows) else -1
  {
    SlotEntry(d, rows, j);
    SlotNumber(col, row, rows, j);
  }

  /** The arithmetic of a slot: it is the item number of that cell, unless the cell
      is above the first or below the last row. */
  lemma SlotValue(d: nat, rows: nat, j: nat)
    requires rows >= 2 && j < 6
    ensures var (q, r) := SlotCell(d / rows, d % rows, j);
            && -1 <= r <= rows
            && Neighbors(d, rows)[j] == if 0 <= r < rows then q * rows + r else -1
  {
    DivModIdentity(d, rows);
    SlotValueAt(d, d / rows, d % rows, rows, j);
  }

  /** A slot that names an item names the hexagon on the far side of that side, and
      that hexagon lists this one back in the opposite slot. */
  lemma NeighborShares(d: nat, rows: nat, j: nat)
    requires rows >= 2 && j < 6
    requires Neighbors(d, rows)[j] >= 0
    ensures var n := Neighbors(d, rows)[j];
            && Center(n, rows) == Across(Center(d, rows), j)
            && DrawnSide(n, rows, Opposite(j)) == DrawnSide(d, rows, j).Reversed()
            && Neighbors(n, rows)[Opposite(j)] == d
  {
    var n := Neighbors(d, rows)[j];
    SlotValue(d, rows, j);
    var (q, r) := SlotCell(d / rows, d % rows, j);
    DivModUnique(n, rows, q, r);
    AcrossIsNeighbor(n, d, rows, Opposite(j));
    DrawnSideIsSide(d, rows, j);
    DrawnSideIsSide(n, rows, Opposite(j));
  }

  /** Whatever item is drawn on the far side of side `j` is listed in slot `j`. */
  lemma AcrossIsNeighbor(d: nat, n: nat, rows: nat, j: nat)
    requires rows >= 2 && j < 6
    requires Center(n, rows) == Across(Center(d, rows), j)
    ensures Neighbors(d, rows)[j] == n
  {
    SlotValue(d, rows, j);
    var (q, r) := SlotCell(d / rows, d % rows, j);
    CellInjective(q, r, n / rows, n % rows);
    DivModIdentity(n, rows);
  }

  /** Only hexagons facing each other share a side in opposite directions. */
  lemma SideReversed(a: Point, j: nat, b: Point, k: nat)
    requires j < 6 && k < 6
    ensures Side(a, j) == Side(b, k).Reversed() <==> b == Across(a, j) && k == Opposite(j)
  {
  }

  /** A directed side belongs to one hexagon only. */
  lemma SideInjective(a: Point, j: nat, b: Point, k: nat)
    requires j < 6 && k < 6 && Side(a, j) == Side(b, k)
    ensures a == b && j == k
  {
  }

  /** Any two drawn hexagons that share a side list each other, in opposite slots. */
  lemma SharedSideListed(a: nat, j: nat, b: nat, k: nat, rows: nat)
    requires rows >= 2 && j < 6 && k < 6
    requires DrawnSide(a, rows, j) == DrawnSide(b, rows, k).Reversed()
    ensures k == Opposite(j) && Neighbors(a, rows)[j] == b && Neighbors(b, rows)[k] == a
  {
    DrawnSideIsSide(a, rows, j);
    DrawnSideIsSide(b, rows, k);
    SideReversed(Center(a, rows), j, Center(b, rows), k);
    AcrossIsNeighbor(a, b, rows, j);
    NeighborShares(a, rows, j);
  }
}
