/** From dots to coloured cells on the screen: the colour grid and the copying loop of `LineGraph.Draw`
    (termui/linegraph.go). */
module Painting {
  import opened GoInt
  import opened Drawille

  // ---------------------------------------------------------------- the screen

  type Color = int
  type Modifier = int

  const COLOR_CLEAR: Color := -1
  const MODIFIER_CLEAR: Modifier := 0

  datatype Glyph = Braille(rune: Rune) | Letter(c: char)
  datatype Style = Style(fg: Color, bg: Color, modifier: Modifier)
  datatype Cell = Cell(glyph: Glyph, style: Style)

  type Cells = map<Point, Cell>

  class Buffer {
    var cells: Cells

    method SetCell(cell: Cell, p: Point)
      modifies this
      ensures cells == old(cells)[p := cell]
    {
      cells := cells[p := cell];
    }
  }

  // ---------------------------------------------------------------- cells and glyphs

  function CellOf(p: Point): Point {
    Point(Quo(p.x, 2), Quo(p.y, 4))
  }

  function CellsOf(points: set<Point>): set<Point> {
    set p | p in points :: CellOf(p)
  }

  function BitFor(points: set<Point>, x: int, y: int, mask: bv32): bv32 {
    if Point(x, y) in points then mask else 0
  }

  /** The braille character whose dots are exactly the given points inside the cell. */
  function GlyphOf(points: set<Point>, cell: Point): Rune {
    var x, y := 2 * cell.x, 4 * cell.y;
    BRAILLE_CHAR_OFFSET +
    (BitFor(points, x, y, 0x1) | BitFor(points, x, y + 1, 0x2) |
     BitFor(points, x, y + 2, 0x4) | BitFor(points, x, y + 3, 0x40) |
     BitFor(points, x + 1, y, 0x8) | BitFor(points, x + 1, y + 1, 0x10) |
     BitFor(points, x + 1, y + 2, 0x20) | BitFor(points, x + 1, y + 3, 0x80))
  }

  function If(lit: bool, mask: bv32): bv32 {
    if lit then mask else 0
  }

  lemma EightBits(v: bv32)
    requires IsCell(v)
    ensures v == If(HasBit(v, 0x1), 0x1) | If(HasBit(v, 0x2), 0x2) | If(HasBit(v, 0x4), 0x4)
               | If(HasBit(v, 0x40), 0x40) | If(HasBit(v, 0x8), 0x8) | If(HasBit(v, 0x10), 0x10)
               | If(HasBit(v, 0x20), 0x20) | If(HasBit(v, 0x80), 0x80)
  {
    OneBit(v, 0x1);
    OneBit(v, 0x2);
    OneBit(v, 0x4);
    OneBit(v, 0x40);
    OneBit(v, 0x8);
    OneBit(v, 0x10);
    OneBit(v, 0x20);
    OneBit(v, 0x80);
    hide If, HasBit;
    EightParts(v);
  }

  lemma OneBit(v: bv32, m: bv32)
    requires IsPixel(m)
    ensures v & m == If(HasBit(v, m), m)
  {
  }

  lemma EightParts(v: bv32)
    requires IsCell(v)
    ensures v == (v & 0x1) | (v & 0x2) | (v & 0x4) | (v & 0x40) | (v & 0x8) | (v & 0x10) | (v & 0x20) | (v & 0x80)
  {
  }

  lemma QuadrantDot(cell: Point, col: int, row: int)
    requires cell.x >= 0 && cell.y >= 0 && 0 <= col < 2 && 0 <= row < 4
    ensures var p := Point(2 * cell.x + col, 4 * cell.y + row);
            CellOf(p) == cell && Canon(p) == p && DotOf(p) == Dot(cell.x, cell.y, PixelMap(row, col))
  {
  }

  /** What the canvas prints for a cell is the union of the dots in it. */
  lemma CellGlyph(chars: Chars, points: set<Point>, cell: Point)
    requires Represents(chars, points) && cell.x >= 0 && cell.y >= 0
    ensures CellAt(chars, cell.y, cell.x) + BRAILLE_CHAR_OFFSET == GlyphOf(points, cell)
  {
    var v := CellAt(chars, cell.y, cell.x);
    assert IsCell(v);
    forall col, row | 0 <= col < 2 && 0 <= row < 4
      ensures HasBit(v, PixelMap(row, col)) <==> Point(2 * cell.x + col, 4 * cell.y + row) in points
    {
      QuadrantDot(cell, col, row);
      var p := Point(2 * cell.x + col, 4 * cell.y + row);
      assert Lit(chars, DotOf(p)) <==> Canon(p) in points;
    }
    BitsAtCorners(v, points, cell);
    EightBits(v);
    hide HasBit, CellAt, Represents, PixelMap;
  }

  lemma BitsAtCorners(v: bv32, points: set<Point>, cell: Point)
    requires forall col, row :: 0 <= col < 2 && 0 <= row < 4 ==>
               (HasBit(v, PixelMap(row, col)) <==> Point(2 * cell.x + col, 4 * cell.y + row) in points)
    ensures HasBit(v, 0x1) <==> Point(2 * cell.x, 4 * cell.y) in points
    ensures HasBit(v, 0x2) <==> Point(2 * cell.x, 4 * cell.y + 1) in points
    ensures HasBit(v, 0x4) <==> Point(2 * cell.x, 4 * cell.y + 2) in points
    ensures HasBit(v, 0x40) <==> Point(2 * cell.x, 4 * cell.y + 3) in points
    ensures HasBit(v, 0x8) <==> Point(2 * cell.x + 1, 4 * cell.y) in points
    ensures HasBit(v, 0x10) <==> Point(2 * cell.x + 1, 4 * cell.y + 1) in points
    ensures HasBit(v, 0x20) <==> Point(2 * cell.x + 1, 4 * cell.y + 2) in points
    ensures HasBit(v, 0x80) <==> Point(2 * cell.x + 1, 4 * cell.y + 3) in points
  {
    hide HasBit;
    assert PixelMap(0, 0) == 0x1 && PixelMap(1, 0) == 0x2 && PixelMap(2, 0) == 0x4 && PixelMap(3, 0) == 0x40;
    assert PixelMap(0, 1) == 0x8 && PixelMap(1, 1) == 0x10 && PixelMap(2, 1) == 0x20 && PixelMap(3, 1) == 0x80;
    assert 2 * cell.x + 0 == 2 * cell.x && 4 * cell.y + 0 == 4 * cell.y;
  }

  predicate AllNonNegative(points: set<Point>) {
    forall p :: p in points ==> p.x >= 0 && p.y >= 0
  }

  lemma SomeBit(a: bv32, b: bv32, c: bv32, d: bv32, e: bv32, f: bv32, g: bv32, h: bv32)
    ensures BRAILLE_CHAR_OFFSET + (a | b | c | d | e | f | g | h) != BRAILLE_CHAR_OFFSET
       <==> a != 0 || b != 0 || c != 0 || d != 0 || e != 0 || f != 0 || g != 0 || h != 0
  {
  }

  /** A cell prints as something other than the empty braille character exactly when a dot is in it. */
  lemma EmptyGlyph(points: set<Point>, cell: Point)
    requires AllNonNegative(points)
    ensures GlyphOf(points, cell) != BRAILLE_CHAR_OFFSET <==> cell in CellsOf(points)
  {
    var x, y := 2 * cell.x, 4 * cell.y;
    SomeBit(BitFor(points, x, y, 0x1), BitFor(points, x, y + 1, 0x2),
            BitFor(points, x, y + 2, 0x4), BitFor(points, x, y + 3, 0x40),
            BitFor(points, x + 1, y, 0x8), BitFor(points, x + 1, y + 1, 0x10),
            BitFor(points, x + 1, y + 2, 0x20), BitFor(points, x + 1, y + 3, 0x80));
    DotsOfCell(points, cell);
    hide CellsOf, CellOf;
  }

  lemma DotsOfCell(points: set<Point>, cell: Point)
    requires AllNonNegative(points)
    ensures var x, y := 2 * cell.x, 4 * cell.y;
            cell in CellsOf(points) <==>
              || Point(x, y) in points || Point(x, y + 1) in points
              || Point(x, y + 2) in points || Point(x, y + 3) in points
              || Point(x + 1, y) in points || Point(x + 1, y + 1) in points
              || Point(x + 1, y + 2) in points || Point(x + 1, y + 3) in points
  {
    if cell in CellsOf(points) {
      var p :| p in points && CellOf(p) == cell;
      assert p == Point(p.x, p.y);
    }
    forall p | p in points && 0 <= p.x - 2 * cell.x < 2 && 0 <= p.y - 4 * cell.y < 4
      ensures CellOf(p) == cell
    {
    }
  }

  lemma CellsOfUnion(a: set<Point>, b: set<Point>)
    ensures CellsOf(a + b) == CellsOf(a) + CellsOf(b)
  {
  }

  // ---------------------------------------------------------------- painting

  /** The colours of the cells, two more each way than the graph has. */
  type Grid = map<Point, Color>

  function Paint(grid: Grid, cells: set<Point>, color: Color): Grid {
    map cell | cell in grid :: if cell in cells then color else grid[cell]
  }

  lemma PaintMore(grid: Grid, a: set<Point>, b: set<Point>, color: Color)
    ensures Paint(Paint(grid, CellsOf(a), color), CellsOf(b), color) == Paint(grid, CellsOf(a + b), color)
    ensures Paint(grid, CellsOf({}), color) == grid
  {
    CellsOfUnion(a, b);
  }

  ghost function GridOf(colors: array2<Color>): Grid
    reads colors
  {
    map x, y | 0 <= x < colors.Length0 && 0 <= y < colors.Length1 :: Point(x, y) := colors[x, y]
  }

  predicate OnBoard(colors: array2<Color>, p: Point) {
    p.x >= 0 && p.y >= 0 && Quo(p.x, 2) < colors.Length0 && Quo(p.y, 4) < colors.Length1
  }

  predicate AllOnBoard(colors: array2<Color>, line: seq<Point>) {
    forall p :: p in line ==> OnBoard(colors, p)
  }

  method PaintDot(colors: array2<Color>, p: Point, color: Color)
    requires OnBoard(colors, p)
    modifies colors
    ensures GridOf(colors) == Paint(old(GridOf(colors)), CellsOf({p}), color)
  {
    colors[Quo(p.x, 2), Quo(p.y, 4)] := color;
    assert CellsOf({p}) == {CellOf(p)};
  }

  ghost function PointsOf(line: seq<Point>): set<Point> {
    set p | p in line
  }

  lemma OneMorePoint(line: seq<Point>, k: nat)
    requires k < |line|
    ensures PointsOf(line[..k + 1]) == PointsOf(line[..k]) + {line[k]}
  {
  }

  /** Colours the cells of the dots of a line. */
  method PaintLine(colors: array2<Color>, line: seq<Point>, color: Color)
    requires AllOnBoard(colors, line)
    modifies colors
    ensures GridOf(colors) == Paint(old(GridOf(colors)), CellsOf(PointsOf(line)), color)
  {
    hide GridOf, Paint, CellsOf, OnBoard;
    ghost var grid := GridOf(colors);
    PaintMore(grid, {}, {}, color);
    assert PointsOf(line[..0]) == {};
    for k := 0 to |line|
      invariant GridOf(colors) == Paint(grid, CellsOf(PointsOf(line[..k])), color)
    {
      assert line[k] in line;
      PaintDot(colors, line[k], color);
      PaintMore(grid, PointsOf(line[..k]), {line[k]}, color);
      OneMorePoint(line, k);
    }
    assert line[..|line|] == line;
  }

  /** The dots of the line into the left wall that are kept. */
  ghost function Clipped(line: seq<Point>): set<Point> {
    set p | p in line && p.x > 0
  }

  lemma OneMoreClipped(line: seq<Point>, k: nat)
    requires k < |line|
    ensures Clipped(line[..k + 1]) == if line[k].x > 0 then Clipped(line[..k]) + {line[k]} else Clipped(line[..k])
  {
  }

  method DrawToWall(c: Canvas, colors: array2<Color>, line: seq<Point>, color: Color)
    requires c.Valid() && InQuadrant(c.chars)
    requires forall p :: p in line && p.x > 0 ==> OnBoard(colors, p)
    modifies c, colors
    ensures c.Valid() && InQuadrant(c.chars)
    ensures c.points == old(c.points) + Clipped(line)
    ensures GridOf(colors) == Paint(old(GridOf(colors)), CellsOf(Clipped(line)), color)
  {
    hide GridOf, Paint, CellsOf, Represents, InQuadrant;
    ghost var grid := GridOf(colors);
    PaintMore(grid, {}, {}, color);
    assert Clipped(line[..0]) == {};
    for k := 0 to |line|
      invariant c.Valid() && InQuadrant(c.chars)
      invariant c.points == old(c.points) + Clipped(line[..k])
      invariant GridOf(colors) == Paint(grid, CellsOf(Clipped(line[..k])), color)
    {
      var p := line[k];
      assert p in line;
      OneMoreClipped(line, k);
      if p.x > 0 {
        c.Set(p.x, p.y);
        PaintDot(colors, p, color);
        PaintMore(grid, Clipped(line[..k]), {p}, color);
        assert Canon(p) == p;
      }
    }
    assert line[..|line|] == line;
  }

  // ---------------------------------------------------------------- from canvas to screen

  /** The length of a rune in UTF-8 (section 3 of RFC 3629); `range` over a Go string counts octets. */
  function Octets(r: Rune): nat {
    if r < 0x80 then 1 else if r < 0x800 then 2 else if r < 0x1_0000 then 3 else 4
  }

  lemma BrailleTakesThreeOctets(v: bv32)
    requires IsCell(v)
    ensures Octets(v + BRAILLE_CHAR_OFFSET) == 3
  {
  }

  /** The inner rectangle's corner; canvas cell (1, 1) prints there. */
  function ScreenPos(origin: Point, cell: Point): Point {
    Point(origin.x + cell.x - 1, origin.y + cell.y - 1)
  }

  function ColorIn(grid: Grid, cell: Point): Color {
    if cell in grid then grid[cell] else 0
  }

  function PlotCell(points: set<Point>, grid: Grid, cell: Point): Cell {
    Cell(Braille(GlyphOf(points, cell)), Style(ColorIn(grid, cell), COLOR_CLEAR, MODIFIER_CLEAR))
  }

  /** Row by row, and in a row from left to right. */
  predicate Before(cell: Point, x: int, y: int) {
    cell.y < y || (cell.y == y && cell.x < x)
  }

  ghost function PlottedBefore(points: set<Point>, grid: Grid, origin: Point, x: int, y: int): Cells {
    map cell | cell in CellsOf(points) && cell.x >= 1 && Before(cell, x, y)
      :: ScreenPos(origin, cell) := PlotCell(points, grid, cell)
  }

  /** The cells in which a drawing shows: each cell with a dot in it, but for the leftmost column,
      with the union of its dots and its colour. */
  ghost function Plotted(points: set<Point>, grid: Grid, origin: Point): Cells {
    map cell | cell in CellsOf(points) && cell.x >= 1 :: ScreenPos(origin, cell) := PlotCell(points, grid, cell)
  }

  lemma OneMoreCell(points: set<Point>, grid: Grid, origin: Point, x: int, y: int)
    ensures var cell := Point(x, y);
            PlottedBefore(points, grid, origin, x + 1, y) ==
              if cell in CellsOf(points) && x >= 1
              then PlottedBefore(points, grid, origin, x, y)[ScreenPos(origin, cell) := PlotCell(points, grid, cell)]
              else PlottedBefore(points, grid, origin, x, y)
  {
    hide CellsOf, PlotCell;
    var cell := Point(x, y);
    assert forall c: Point :: Before(c, x + 1, y) <==> Before(c, x, y) || c == cell;
  }

  lemma OneMoreRow(points: set<Point>, grid: Grid, origin: Point, x: int, y: int)
    requires forall cell :: cell in CellsOf(points) ==> cell.x < x
    ensures PlottedBefore(points, grid, origin, x, y) == PlottedBefore(points, grid, origin, 0, y + 1)
  {
    hide CellsOf, PlotCell;
  }

  lemma AllRows(points: set<Point>, grid: Grid, origin: Point, y: int)
    requires forall cell :: cell in CellsOf(points) ==> cell.y < y
    ensures PlottedBefore(points, grid, origin, 0, y) == Plotted(points, grid, origin)
  {
    hide CellsOf, PlotCell;
  }

  lemma NoRows(points: set<Point>, grid: Grid, origin: Point)
    requires forall cell :: cell in CellsOf(points) ==> cell.x >= 0 && cell.y >= 0
    ensures PlottedBefore(points, grid, origin, 0, 0) == map[]
  {
    hide CellsOf, PlotCell;
  }

  /** A canvas without negative cells is viewed from its origin, and no dot lies outside the view. */
  lemma FullViewFromOrigin(chars: Chars, points: set<Point>, mincol: int, minrow: int, maxcol: int, maxrow: int)
    requires Represents(chars, points) && InQuadrant(chars) && AllNonNegative(points)
    requires IsLeast(Columns(chars), mincol) && IsGreatest(Columns(chars), maxcol)
    requires IsLeast(chars.Keys, minrow) && IsGreatest(chars.Keys, maxrow)
    ensures mincol == 0 && minrow == 0 && 0 <= maxcol && 0 <= maxrow
    ensures forall cell :: cell in CellsOf(points) ==> 0 <= cell.x <= maxcol && 0 <= cell.y <= maxrow
  {
    forall cell | cell in CellsOf(points)
      ensures 0 <= cell.x <= maxcol && 0 <= cell.y <= maxrow
    {
      NonNegativeCells(points, cell);
      EmptyGlyph(points, cell);
      CellGlyph(chars, points, cell);
      assert cell.y in chars && cell.x in chars[cell.y] by {
        hide GlyphOf;
      }
      assert cell.x in Columns(chars);
    }
  }

  lemma NonNegativeCells(points: set<Point>, cell: Point)
    requires AllNonNegative(points) && cell in CellsOf(points)
    ensures cell.x >= 0 && cell.y >= 0
  {
  }

  /** One line of braille: a row of glyphs of three octets each. */
  predicate IsBrailleRow(line: seq<Rune>, points: set<Point>, y: int) {
    forall k :: 0 <= k < |line| ==> line[k] == GlyphOf(points, Point(k, y)) && Octets(line[k]) == 3
  }

  /** No cell with a dot lies outside a rectangle of this size. */
  predicate Within(points: set<Point>, width: int, height: int) {
    forall cell :: cell in CellsOf(points) ==> 0 <= cell.x < width && 0 <= cell.y < height
  }

  /** Copies one row of the canvas to the screen. */
  method CopyRow(line: seq<Rune>, y: int, colors: array2<Color>, buf: Buffer, origin: Point,
                 ghost points: set<Point>, ghost under: Cells, ghost height: int)
    requires AllNonNegative(points) && IsBrailleRow(line, points, y)
    requires Within(points, |line|, height) && Within(points, colors.Length0, colors.Length1)
    requires buf.cells == under + PlottedBefore(points, GridOf(colors), origin, 0, y)
    modifies buf
    ensures buf.cells == under + PlottedBefore(points, GridOf(colors), origin, 0, y + 1)
  {
    hide CellsOf, PlottedBefore, PlotCell, GlyphOf, Octets, GridOf, AllNonNegative;
    ghost var grid := GridOf(colors);
    var offset := 0;
    for k := 0 to |line|
      invariant offset == 3 * k
      invariant buf.cells == under + PlottedBefore(points, grid, origin, k, y)
    {
      var glyph := line[k];
      var x := offset / 3;
      offset := offset + Octets(glyph);
      EmptyGlyph(points, Point(k, y));
      OneMoreCell(points, grid, origin, k, y);
      if x == 0 {
        continue;
      }
      if glyph != BRAILLE_CHAR_OFFSET {
        GridColor(colors, x, y);
        PlotCellIs(points, grid, Point(x, y));
        buf.SetCell(Cell(Braille(glyph), Style(colors[x, y], COLOR_CLEAR, MODIFIER_CLEAR)),
                    Point(origin.x + x - 1, origin.y + y - 1));
      }
    }
    OneMoreRow(points, grid, origin, |line|, y);
  }

  /** Rows of runes that show every cell with a dot in it. */
  predicate ShowsAll(rows: seq<seq<Rune>>, points: set<Point>) {
    rows != [] && forall y :: 0 <= y < |rows| ==> IsBrailleRow(rows[y], points, y) && Within(points, |rows[y]|, |rows|)
  }

  /** The rows of everything on the canvas. */
  method FullRows(c: Canvas) returns (rows: seq<seq<Rune>>)
    requires c.Valid() && InQuadrant(c.chars) && AllNonNegative(c.points)
    ensures ShowsAll(rows, c.points)
  {
    var minX := c.MinX();
    var minY := c.MinY();
    var maxX := c.MaxX();
    var maxY := c.MaxY();
    FullViewFromOrigin(c.chars, c.points, minX / 2, minY / 4, maxX / 2, maxY / 4);
    rows := c.Rows(minX, minY, maxX, maxY);
    ghost var width := maxX / 2 + 1;
    hide Represents, InQuadrant, CellsOf, Columns, IsLeast, IsGreatest, AllNonNegative, IsBrailleRow, ViewRow;
    forall y | 0 <= y < |rows|
      ensures |rows[y]| == width && IsBrailleRow(rows[y], c.points, y)
    {
      ViewRowIsBraille(c.chars, c.points, maxX / 2, y);
    }
  }

  lemma AllShown(points: set<Point>, grid: Grid, origin: Point, width: int, height: int)
    requires Within(points, width, height)
    ensures PlottedBefore(points, grid, origin, 0, 0) == map[]
    ensures PlottedBefore(points, grid, origin, 0, height) == Plotted(points, grid, origin)
  {
    NoRows(points, grid, origin);
    AllRows(points, grid, origin, height);
  }

  /** Copies the canvas to the screen. */
  method CopyRows(c: Canvas, colors: array2<Color>, buf: Buffer, origin: Point)
    requires c.Valid() && InQuadrant(c.chars) && AllNonNegative(c.points)
    requires Within(c.points, colors.Length0, colors.Length1)
    modifies buf
    ensures buf.cells == old(buf.cells) + Plotted(c.points, GridOf(colors), origin)
  {
    hide Represents, InQuadrant, CellsOf, PlottedBefore, Plotted, GridOf, IsBrailleRow, AllNonNegative, Within;
    var rows := FullRows(c);
    ghost var points, grid, under := c.points, GridOf(colors), buf.cells;
    AllShown(points, grid, origin, |rows[0]|, |rows|);
    assert under + map[] == under;
    for y := 0 to |rows|
      invariant c.points == points && GridOf(colors) == grid
      invariant buf.cells == under + PlottedBefore(points, grid, origin, 0, y)
    {
      CopyRow(rows[y], y, colors, buf, origin, points, under, |rows|);
    }
  }

  lemma ViewRowIsBraille(chars: Chars, points: set<Point>, maxcol: int, y: int)
    requires Represents(chars, points) && maxcol >= 0 && y >= 0
    ensures |ViewRow(chars, 0, maxcol, y)| == maxcol + 1
    ensures IsBrailleRow(ViewRow(chars, 0, maxcol, y), points, y)
  {
    hide GlyphOf, Octets, Represents, CellAt;
    forall x | 0 <= x < maxcol + 1
      ensures var r := ViewRow(chars, 0, maxcol, y)[x]; r == GlyphOf(points, Point(x, y)) && Octets(r) == 3
    {
      RowGlyph(chars, points, maxcol, x, y);
    }
  }

  lemma RowGlyph(chars: Chars, points: set<Point>, maxcol: int, x: int, y: int)
    requires Represents(chars, points) && 0 <= x <= maxcol && y >= 0
    ensures |ViewRow(chars, 0, maxcol, y)| == maxcol + 1
    ensures ViewRow(chars, 0, maxcol, y)[x] == GlyphOf(points, Point(x, y))
    ensures Octets(ViewRow(chars, 0, maxcol, y)[x]) == 3
  {
    CellGlyph(chars, points, Point(x, y));
    assert IsCell(CellAt(chars, y, x));
    BrailleTakesThreeOctets(CellAt(chars, y, x));
    hide GlyphOf, Octets, IsCell, CellAt;
  }

  lemma GridColor(colors: array2<Color>, x: int, y: int)
    requires 0 <= x < colors.Length0 && 0 <= y < colors.Length1
    ensures ColorIn(GridOf(colors), Point(x, y)) == colors[x, y]
  {
  }

  lemma PlotCellIs(points: set<Point>, grid: Grid, cell: Point)
    ensures PlotCell(points, grid, cell)
         == Cell(Braille(GlyphOf(points, cell)), Style(ColorIn(grid, cell), COLOR_CLEAR, MODIFIER_CLEAR))
  {
  }
}
