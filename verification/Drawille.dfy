/** The braille canvas of termui/drawille-go/drawille.go: each character cell packs a
    block of dots, two wide and four high, into one byte above U+2800
    (Unicode Standard, section 21.1, Braille Patterns). */
module Drawille {
  import opened GoInt

  datatype Point = Point(x: int, y: int)

  // ---------------------------------------------------------------- digital lines

  /** One coordinate of the i-th of r steps from a to b. */
  function Coord(a: int, b: int, i: nat, r: nat): int
    requires a != b ==> r > 0
  {
    if a == b then a
    else a + Quo(i * Abs(b - a), r * (if a <= b then 1 else -1))
  }

  function Steps(p: Point, q: Point): nat {
    Max(Abs(p.x - q.x), Abs(q.y - p.y))
  }

  function LinePoint(p: Point, q: Point, i: nat): Point {
    Point(Coord(p.x, q.x, i, Steps(p, q)), Coord(p.y, q.y, i, Steps(p, q)))
  }

  function LinePoints(p: Point, q: Point): seq<Point> {
    seq(Steps(p, q) + 1, i requires 0 <= i => LinePoint(p, q, i))
  }

  /** Computes a line dot by dot, one dot for each step of the longer axis. */
  method Line(x1: int, y1: int, x2: int, y2: int) returns (points: seq<Point>)
    ensures points == LinePoints(Point(x1, y1), Point(x2, y2))
    ensures IsDigitalLine(Point(x1, y1), Point(x2, y2), points)
  {
    var xdiff := Abs(x1 - x2);
    var ydiff := Abs(y2 - y1);
    var xdir := if x1 <= x2 then 1 else -1;
    var ydir := if y1 <= y2 then 1 else -1;
    var r := Max(xdiff, ydiff);
    var dots := new Point[r + 1];
    for i := 0 to r + 1
      invariant forall j :: 0 <= j < i ==> dots[j] == LinePoint(Point(x1, y1), Point(x2, y2), j)
    {
      var x, y := x1, y1;
      if ydiff != 0 {
        y := y + Quo(i * ydiff, r * ydir);
      }
      if xdiff != 0 {
        x := x + Quo(i * xdiff, r * xdir);
      }
      dots[i] := Point(x, y);
    }
    points := dots[..];
    hide IsDigitalLine;
    LineIsDigital(Point(x1, y1), Point(x2, y2));
  }

  predicate Between(a: int, c: int, b: int) {
    a <= c <= b || b <= c <= a
  }

  /** What makes a coordinate c the right one after i of r even steps from a to b: it lies
      on the way, and r times the distance covered is within r below the exact i * |b - a|. */
  predicate OnCourse(a: int, b: int, i: nat, r: nat, c: int) {
    && Between(a, c, b)
    && r * Abs(c - a) <= i * Abs(b - a)
    && (a != b ==> i * Abs(b - a) < r * Abs(c - a) + r)
  }

  /** The digital line from p to q, said without the formula that computes it. */
  ghost predicate IsDigitalLine(p: Point, q: Point, line: seq<Point>) {
    && |line| == Steps(p, q) + 1
    && forall i :: 0 <= i < |line| ==>
         OnCourse(p.x, q.x, i, Steps(p, q), line[i].x) && OnCourse(p.y, q.y, i, Steps(p, q), line[i].y)
  }

  lemma DivBounds(n: nat, r: nat)
    requires r > 0
    ensures r * (n / r) <= n < r * (n / r) + r
  {
  }

  lemma QuotientUnique(n: nat, r: nat, s: nat, t: nat)
    requires r * s <= n < r * s + r
    requires r * t <= n < r * t + r
    ensures s == t
  {
    NoWiderGap(r, s, t);
    NoWiderGap(r, t, s);
  }

  lemma NoWiderGap(r: nat, s: nat, t: nat)
    ensures s < t ==> r * s + r <= r * t
  {
    if s < t {
      assert r * s + r == r * (s + 1);
    }
  }

  lemma CoordValue(a: int, b: int, i: nat, r: nat)
    requires a != b && r > 0
    ensures var k := i * Abs(b - a) / r; Coord(a, b, i, r) == if a <= b then a + k else a - k
  {
    var n := i * Abs(b - a);
    if a > b {
      assert r * -1 == 0 - r;
      NegativeQuotient(n, r);
    } else {
      assert r * 1 == r;
    }
  }

  lemma ShareOfWhole(i: nat, d: nat, r: nat)
    requires i <= r && r > 0
    ensures var k := i * d / r; k <= d && r * k <= i * d < r * k + r
  {
    var n, k := i * d, i * d / r;
    DivBounds(n, r);
    assert n <= r * d;
    NoWiderGap(r, d, k);
  }

  lemma CoordIsOnCourse(a: int, b: int, i: nat, r: nat)
    requires i <= r && Abs(b - a) <= r
    ensures OnCourse(a, b, i, r, Coord(a, b, i, r))
    ensures a != b ==> Abs(Coord(a, b, i, r) - a) == i * Abs(b - a) / r
  {
    if a != b {
      hide Coord;
      CoordValue(a, b, i, r);
      ShareOfWhole(i, Abs(b - a), r);
    }
  }

  lemma NegativeQuotient(n: nat, r: nat)
    requires r > 0
    ensures n / (0 - r) == 0 - n / r
  {
  }

  lemma CourseUnique(a: int, b: int, i: nat, r: nat, c: int, d: int)
    requires OnCourse(a, b, i, r, c) && OnCourse(a, b, i, r, d)
    ensures c == d
  {
    if a != b {
      QuotientUnique(i * Abs(b - a), r, Abs(c - a), Abs(d - a));
    }
  }

  lemma LineIsDigital(p: Point, q: Point)
    ensures IsDigitalLine(p, q, LinePoints(p, q))
  {
    forall i | 0 <= i < Steps(p, q) + 1
      ensures OnCourse(p.x, q.x, i, Steps(p, q), LinePoints(p, q)[i].x)
      ensures OnCourse(p.y, q.y, i, Steps(p, q), LinePoints(p, q)[i].y)
    {
      CoordIsOnCourse(p.x, q.x, i, Steps(p, q));
      CoordIsOnCourse(p.y, q.y, i, Steps(p, q));
    }
  }

  /** There is only one digital line between two points. */
  lemma DigitalLineUnique(p: Point, q: Point, line: seq<Point>)
    requires IsDigitalLine(p, q, line)
    ensures line == LinePoints(p, q)
  {
    LineIsDigital(p, q);
    forall i | 0 <= i < |line|
      ensures line[i] == LinePoints(p, q)[i]
    {
      CourseUnique(p.x, q.x, i, Steps(p, q), line[i].x, LinePoints(p, q)[i].x);
      CourseUnique(p.y, q.y, i, Steps(p, q), line[i].y, LinePoints(p, q)[i].y);
    }
  }

  lemma EndsOfCourse(a: int, b: int, i: nat, r: nat, c: int)
    requires OnCourse(a, b, i, r, c) && Abs(b - a) <= r && i <= r
    ensures i == 0 ==> c == a
    ensures i == r ==> c == b
    ensures Abs(b - a) == r ==> Abs(c - a) == i
    ensures Between(a, c, b)
  {
    if a != b {
      var d := Abs(c - a);
      NoWiderGap(r, 0, d);
      if i == r {
        assert r * d == d * r;
        QuotientUnique(r * Abs(b - a), r, d, Abs(b - a));
      }
      if Abs(b - a) == r {
        assert i * Abs(b - a) == r * i;
        QuotientUnique(r * i, r, d, i);
      }
    }
  }

  lemma QuotientStep(i: nat, n: nat, r: nat, s: nat, t: nat)
    requires r * s <= i * n < r * s + r
    requires r * t <= (i + 1) * n < r * t + r
    requires n <= r
    ensures s <= t <= s + 1
  {
    assert (i + 1) * n == i * n + n;
    NoWiderGap(r, t, s);
    NoWiderGap(r, s + 1, t);
    assert r * (s + 1) == r * s + r;
  }

  lemma CourseStep(a: int, b: int, i: nat, r: nat, c: int, d: int)
    requires OnCourse(a, b, i, r, c) && OnCourse(a, b, i + 1, r, d) && Abs(b - a) <= r
    ensures Abs(c - a) <= Abs(d - a) <= Abs(c - a) + 1
  {
    if a != b {
      QuotientStep(i, Abs(b - a), r, Abs(c - a), Abs(d - a));
    }
  }

  lemma UnitStep(a: int, b: int, i: nat, r: nat, c: int, d: int)
    requires OnCourse(a, b, i, r, c) && OnCourse(a, b, i + 1, r, d) && Abs(b - a) <= r && i + 1 <= r
    ensures Abs(d - c) <= 1 && (Abs(b - a) == r ==> Abs(d - c) == 1)
  {
    CourseStep(a, b, i, r, c, d);
    EndsOfCourse(a, b, i, r, c);
    EndsOfCourse(a, b, i + 1, r, d);
    hide OnCourse;
  }

  /** A digital line starts at p, ends at q, never leaves their bounding box, and every step
      moves by exactly one on a longest axis and by at most one on the other; so no dot repeats. */
  lemma DigitalLineShape(p: Point, q: Point, line: seq<Point>)
    requires IsDigitalLine(p, q, line)
    ensures line[0] == p && line[|line| - 1] == q
    ensures forall i :: 0 <= i < |line| ==> Between(p.x, line[i].x, q.x) && Between(p.y, line[i].y, q.y)
    ensures forall i :: 0 <= i < |line| - 1 ==>
              && Abs(line[i + 1].x - line[i].x) <= 1 && Abs(line[i + 1].y - line[i].y) <= 1
              && (Abs(q.x - p.x) == Steps(p, q) ==> Abs(line[i + 1].x - line[i].x) == 1)
              && (Abs(q.y - p.y) == Steps(p, q) ==> Abs(line[i + 1].y - line[i].y) == 1)
    ensures forall i, j :: 0 <= i < j < |line| ==> line[i] != line[j]
  {
    hide OnCourse, Between;
    var r := Steps(p, q);
    forall i | 0 <= i < |line|
      ensures Between(p.x, line[i].x, q.x) && Between(p.y, line[i].y, q.y)
      ensures i == 0 ==> line[i] == p
      ensures i == r ==> line[i] == q
      ensures Abs(q.x - p.x) == r ==> Abs(line[i].x - p.x) == i
      ensures Abs(q.y - p.y) == r ==> Abs(line[i].y - p.y) == i
    {
      EndsOfCourse(p.x, q.x, i, r, line[i].x);
      EndsOfCourse(p.y, q.y, i, r, line[i].y);
    }
    forall i | 0 <= i < |line| - 1
      ensures Abs(line[i + 1].x - line[i].x) <= 1 && Abs(line[i + 1].y - line[i].y) <= 1
      ensures Abs(q.x - p.x) == r ==> Abs(line[i + 1].x - line[i].x) == 1
      ensures Abs(q.y - p.y) == r ==> Abs(line[i + 1].y - line[i].y) == 1
    {
      UnitStep(p.x, q.x, i, r, line[i].x, line[i + 1].x);
      UnitStep(p.y, q.y, i, r, line[i].y, line[i + 1].y);
    }
  }

  // ---------------------------------------------------------------- cells and dots

  type Rune = bv32
  type Chars = map<int, map<int, bv32>>

  const BRAILLE_CHAR_OFFSET: Rune := 0x2800

  function PixelMap(cy: int, cx: int): bv32
    requires 0 <= cy < 4 && 0 <= cx < 2
  {
    if cx == 0 then
      (if cy == 0 then 0x1 else if cy == 1 then 0x2 else if cy == 2 then 0x4 else 0x40)
    else
      (if cy == 0 then 0x8 else if cy == 1 then 0x10 else if cy == 2 then 0x20 else 0x80)
  }

  /** The numbers of the dots of a braille cell: one to three down the left, four to six down the right,
      seven and eight below (section 21.1 of the Unicode Standard). */
  function DotNumber(row: nat, col: nat): nat
    requires row < 4 && col < 2
  {
    if row == 3 then 7 + col else 1 + 3 * col + row
  }

  /** The n-th dot is the n-th bit of a braille character. */
  lemma PixelMapIsUnicode(row: nat, col: nat)
    requires row < 4 && col < 2
    ensures 1 <= DotNumber(row, col) <= 8 && PixelMap(row, col) == (1 as bv32) << (DotNumber(row, col) - 1)
  {
  }

  function DotRow(y: int): int {
    if y >= 0 then Rem(y, 4) else 3 + Rem(y + 1, 4)
  }

  function DotCol(x: int): int {
    if x >= 0 then Rem(x, 2) else 1 + Rem(x + 1, 2)
  }

  function GetPixel(y: int, x: int): bv32 {
    PixelMap(DotRow(y), DotCol(x))
  }

  function CellAt(chars: Chars, py: int, px: int): bv32 {
    if py in chars && px in chars[py] then chars[py][px] else 0
  }

  /** Where a dot lives: its cell and its bit in that cell. */
  datatype Dot = Dot(px: int, py: int, mask: bv32)

  /** The dot that `Set` lights for p. */
  function DotOf(p: Point): Dot {
    Dot(Quo(p.x, 2), Quo(p.y, 4), GetPixel(p.y, p.x))
  }

  predicate Lit(chars: Chars, d: Dot) {
    HasBit(CellAt(chars, d.py, d.px), d.mask)
  }

  /** Truncating division folds the cells next to an axis together, so that some points just
      left of or above it share their dot with a non-negative one: this is that point. */
  function Canon(p: Point): Point {
    Point(if p.x == -1 then 1 else p.x, if -4 < p.y < 0 then p.y + 4 else p.y)
  }

  lemma PixelMapInjective(cy: int, cx: int, dy: int, dx: int)
    requires 0 <= cy < 4 && 0 <= cx < 2 && 0 <= dy < 4 && 0 <= dx < 2
    ensures PixelMap(cy, cx) == PixelMap(dy, dx) <==> cy == dy && cx == dx
  {
  }

  /** Two points share a dot exactly when they fold to the same point. In particular no two
      points share a dot once x = -1 and -4 < y < 0 are avoided. */
  lemma SharedDots(p: Point, q: Point)
    ensures DotOf(p) == DotOf(q) <==> Canon(p) == Canon(q)
  {
    SharedColumns(p.x, q.x);
    SharedRows(p.y, q.y);
    DotInCell(p);
    DotInCell(q);
    PixelMapInjective(DotRow(p.y), DotCol(p.x), DotRow(q.y), DotCol(q.x));
    hide Quo, DotRow, DotCol, PixelMap;
  }

  lemma DotInCell(p: Point)
    ensures 0 <= DotRow(p.y) < 4 && 0 <= DotCol(p.x) < 2
  {
  }

  lemma SharedColumns(x: int, u: int)
    ensures Quo(x, 2) == Quo(u, 2) && DotCol(x) == DotCol(u)
       <==> (if x == -1 then 1 else x) == (if u == -1 then 1 else u)
  {
  }

  lemma RowAddress(y: int)
    ensures y >= 0 ==> y == 4 * Quo(y, 4) + DotRow(y)
    ensures y < 0 ==> Quo(y, 4) <= 0 && -y == 4 * -Quo(y, 4) + (if DotRow(y) == 0 then 0 else 4 - DotRow(y))
    ensures 0 <= DotRow(y) < 4
  {
  }

  lemma SharedRows(y: int, v: int)
    ensures Quo(y, 4) == Quo(v, 4) && DotRow(y) == DotRow(v)
       <==> (if -4 < y < 0 then y + 4 else y) == (if -4 < v < 0 then v + 4 else v)
  {
    RowAddress(y);
    RowAddress(v);
    hide Quo, DotRow;
  }

  predicate IsPixel(m: bv32) {
    || m == 0x1 || m == 0x2 || m == 0x4 || m == 0x8
    || m == 0x10 || m == 0x20 || m == 0x40 || m == 0x80
  }

  predicate IsCell(v: bv32) {
    v < 0x100
  }

  lemma QuoOfNat(n: int, d: int)
    requires d > 0
    ensures n >= 0 ==> Quo(n, d) >= 0
  {
  }

  lemma PlainPixel(x: int, y: int)
    requires Rem(y, 4) >= 0 && Rem(x, 2) >= 0
    ensures PixelMap(Rem(y, 4), Rem(x, 2)) == GetPixel(y, x)
  {
  }

  lemma MaskIsPixel(p: Point)
    ensures IsPixel(DotOf(p).mask)
  {
    DotInCell(p);
  }

  function WithBits(v: bv32, m: bv32): bv32 {
    v | m
  }

  /** Go's `v &^ m`. */
  function WithoutBits(v: bv32, m: bv32): bv32 {
    v & !m
  }

  predicate HasBit(v: bv32, m: bv32) {
    v & m != 0
  }

  lemma SetBit(v: bv32, m: bv32, n: bv32)
    requires IsPixel(m) && IsPixel(n)
    ensures HasBit(WithBits(v, m), n) <==> HasBit(v, n) || n == m
    ensures IsCell(v) ==> IsCell(WithBits(v, m))
  {
  }

  lemma ClearBit(v: bv32, m: bv32, n: bv32)
    requires IsPixel(m) && IsPixel(n)
    ensures HasBit(WithoutBits(v, m), n) <==> HasBit(v, n) && n != m
    ensures IsCell(v) ==> IsCell(WithoutBits(v, m))
  {
  }

  lemma NoBits(m: bv32)
    ensures !HasBit(0, m)
  {
  }

  /** chars shows exactly the given (folded) points, one byte per cell. */
  ghost predicate Represents(chars: Chars, points: set<Point>) {
    && (forall p: Point :: Lit(chars, DotOf(p)) <==> Canon(p) in points)
    && (forall p :: p in points ==> Canon(p) == p)
    && (forall py, px :: IsCell(CellAt(chars, py, px)))
  }

  function WithCell(chars: Chars, py: int, px: int, v: bv32): Chars {
    chars[py := (if py in chars then chars[py] else map[])[px := v]]
  }

  function WithDot(chars: Chars, d: Dot): Chars {
    WithCell(chars, d.py, d.px, WithBits(CellAt(chars, d.py, d.px), d.mask))
  }

  function WithoutDot(chars: Chars, d: Dot): Chars {
    WithCell(chars, d.py, d.px, WithoutBits(CellAt(chars, d.py, d.px), d.mask))
  }

  lemma WithCellAt(chars: Chars, py: int, px: int, v: bv32)
    ensures forall qy, qx :: CellAt(WithCell(chars, py, px, v), qy, qx)
                          == if qy == py && qx == px then v else CellAt(chars, qy, qx)
  {
  }

  lemma LightDot(chars: Chars, d: Dot, e: Dot)
    requires IsPixel(d.mask) && IsPixel(e.mask)
    ensures Lit(WithDot(chars, d), e) <==> Lit(chars, e) || e == d
  {
    hide HasBit, WithBits, WithoutBits, IsPixel, IsCell;
    var v := CellAt(chars, d.py, d.px);
    SetBit(v, d.mask, e.mask);
    WithCellAt(chars, d.py, d.px, WithBits(v, d.mask));
  }

  lemma DarkenDot(chars: Chars, d: Dot, e: Dot)
    requires IsPixel(d.mask) && IsPixel(e.mask)
    ensures Lit(WithoutDot(chars, d), e) <==> Lit(chars, e) && e != d
  {
    hide HasBit, WithBits, WithoutBits, IsPixel, IsCell;
    var v := CellAt(chars, d.py, d.px);
    ClearBit(v, d.mask, e.mask);
    WithCellAt(chars, d.py, d.px, WithoutBits(v, d.mask));
  }

  lemma StillCells(chars: Chars, d: Dot, py: int, px: int)
    requires IsPixel(d.mask)
    requires forall qy, qx :: IsCell(CellAt(chars, qy, qx))
    ensures IsCell(CellAt(WithDot(chars, d), py, px)) && IsCell(CellAt(WithoutDot(chars, d), py, px))
  {
    hide HasBit, WithBits, WithoutBits, IsPixel, IsCell;
    var v := CellAt(chars, d.py, d.px);
    SetBit(v, d.mask, d.mask);
    ClearBit(v, d.mask, d.mask);
    WithCellAt(chars, d.py, d.px, WithBits(v, d.mask));
    WithCellAt(chars, d.py, d.px, WithoutBits(v, d.mask));
  }

  lemma FoldedOnce(p: Point)
    ensures Canon(Canon(p)) == Canon(p)
  {
  }

  lemma SetRepresents(chars: Chars, points: set<Point>, p: Point)
    requires Represents(chars, points)
    ensures Represents(WithDot(chars, DotOf(p)), points + {Canon(p)})
  {
    hide DotOf, Canon, Lit, WithDot, IsPixel, IsCell, CellAt;
    forall q: Point
      ensures Lit(WithDot(chars, DotOf(p)), DotOf(q)) <==> Canon(q) in points + {Canon(p)}
    {
      SharedDots(p, q);
      MaskIsPixel(p);
      MaskIsPixel(q);
      LightDot(chars, DotOf(p), DotOf(q));
      assert Lit(chars, DotOf(q)) <==> Canon(q) in points;
    }
    forall py, px
      ensures IsCell(CellAt(WithDot(chars, DotOf(p)), py, px))
    {
      MaskIsPixel(p);
      StillCells(chars, DotOf(p), py, px);
    }
    FoldedOnce(p);
  }

  lemma ClearRepresents(chars: Chars, points: set<Point>, p: Point)
    requires Represents(chars, points)
    ensures Represents(WithoutDot(chars, DotOf(p)), points - {Canon(p)})
  {
    hide DotOf, Canon, Lit, WithoutDot, IsPixel, IsCell, CellAt;
    forall q: Point
      ensures Lit(WithoutDot(chars, DotOf(p)), DotOf(q)) <==> Canon(q) in points - {Canon(p)}
    {
      SharedDots(p, q);
      MaskIsPixel(p);
      MaskIsPixel(q);
      DarkenDot(chars, DotOf(p), DotOf(q));
      assert Lit(chars, DotOf(q)) <==> Canon(q) in points;
    }
    forall py, px
      ensures IsCell(CellAt(WithoutDot(chars, DotOf(p)), py, px))
    {
      MaskIsPixel(p);
      StillCells(chars, DotOf(p), py, px);
    }
  }

  /** `UnSet` takes absolute values before it picks the dot, but not before it picks the cell:
      for an odd negative y it clears the dot two below or above the one `Set` lights. */
  function UnSetTarget(p: Point): Point {
    if p.y < 0 && p.y % 4 == 3 then Point(p.x, p.y - 2)
    else if p.y < 0 && p.y % 4 == 1 then Point(p.x, p.y + 2)
    else p
  }

  lemma UnSetAddresses(p: Point)
    ensures DotOf(UnSetTarget(p)) == Dot(Quo(p.x, 2), Quo(p.y, 4), GetPixel(Abs(p.y), Abs(p.x)))
  {
  }

  /** `UnSet` addresses the dot of `Set` exactly when y is not both odd and negative. */
  lemma UnSetUndoesSet(p: Point)
    ensures Canon(UnSetTarget(p)) == Canon(p) <==> p.y >= 0 || p.y % 2 == 0
  {
  }

  // ---------------------------------------------------------------- the canvas

  /** The greatest of zero and s. */
  ghost predicate IsGreatest(s: set<int>, max: int) {
    (max == 0 || max in s) && 0 <= max && forall k :: k in s ==> k <= max
  }

  /** The least of zero and s. */
  ghost predicate IsLeast(s: set<int>, min: int) {
    (min == 0 || min in s) && min <= 0 && forall k :: k in s ==> min <= k
  }

  /** The loop over the keys of a map that keeps the greatest; `seen` are those of other maps. */
  method GreatestOf(ghost seen: set<int>, keys: set<int>, start: int) returns (max: int)
    requires IsGreatest(seen, start)
    ensures IsGreatest(seen + keys, max)
  {
    max := start;
    var todo := keys;
    while todo != {}
      invariant todo <= keys && IsGreatest(seen + (keys - todo), max)
      decreases |todo|
    {
      var k := NextKey(todo);
      assert seen + (keys - (todo - {k})) == seen + (keys - todo) + {k};
      todo := todo - {k};
      if k > max {
        max := k;
      }
    }
    assert keys - todo == keys;
  }

  /** The loop that keeps the least. */
  method LeastOf(ghost seen: set<int>, keys: set<int>, start: int) returns (min: int)
    requires IsLeast(seen, start)
    ensures IsLeast(seen + keys, min)
  {
    min := start;
    var todo := keys;
    while todo != {}
      invariant todo <= keys && IsLeast(seen + (keys - todo), min)
      decreases |todo|
    {
      var k := NextKey(todo);
      assert seen + (keys - (todo - {k})) == seen + (keys - todo) + {k};
      todo := todo - {k};
      if k < min {
        min := k;
      }
    }
    assert keys - todo == keys;
  }

  /** No cell left of or above the origin has ever been written. */
  ghost predicate InQuadrant(chars: Chars) {
    forall py :: py in chars ==> py >= 0 && forall px :: px in chars[py] ==> px >= 0
  }

  predicate NonNegative(line: seq<Point>) {
    forall p :: p in line ==> p.x >= 0 && p.y >= 0
  }

  ghost function ColumnsOf(chars: Chars, rows: set<int>): set<int>
    requires rows <= chars.Keys
  {
    set row, k | row in rows && k in chars[row] :: k
  }

  lemma NoColumns(chars: Chars)
    ensures ColumnsOf(chars, chars.Keys - chars.Keys) == {}
  {
  }

  lemma MoreColumns(chars: Chars, rows: set<int>, row: int)
    requires rows <= chars.Keys && row in chars
    ensures ColumnsOf(chars, rows + {row}) == ColumnsOf(chars, rows) + chars[row].Keys
  {
    forall k | k in ColumnsOf(chars, rows) + chars[row].Keys
      ensures k in ColumnsOf(chars, rows + {row})
    {
      if k in chars[row].Keys {
        assert row in rows + {row};
      } else {
        var r :| r in rows && k in chars[r];
        assert r in rows + {row};
      }
    }
  }

  ghost function Columns(chars: Chars): set<int> {
    ColumnsOf(chars, chars.Keys)
  }

  function BrailleOf(v: bv32): Rune {
    v + BRAILLE_CHAR_OFFSET
  }

  function BitsOf(r: Rune): bv32 {
    r - BRAILLE_CHAR_OFFSET
  }

  function ViewRow(chars: Chars, mincol: int, maxcol: int, row: int): seq<Rune> {
    seq(Max(0, maxcol + 1 - mincol), j requires 0 <= j => BrailleOf(CellAt(chars, row, mincol + j)))
  }

  function View(chars: Chars, mincol: int, minrow: int, maxcol: int, maxrow: int): seq<seq<Rune>> {
    seq(Max(0, maxrow + 1 - minrow), i requires 0 <= i => ViewRow(chars, mincol, maxcol, minrow + i))
  }

  predicate ShowsDot(rows: seq<seq<Rune>>, mincol: int, minrow: int, d: Dot) {
    var i, j := d.py - minrow, d.px - mincol;
    0 <= i < |rows| && 0 <= j < |rows[i]| && HasBit(BitsOf(rows[i][j]), d.mask)
  }

  /** Does a view whose first row and column are the given ones show the dot of p? */
  predicate Shown(rows: seq<seq<Rune>>, mincol: int, minrow: int, p: Point) {
    ShowsDot(rows, mincol, minrow, DotOf(p))
  }

  class Canvas {
    var chars: Chars
    /** The folded points that are lit. */
    ghost var points: set<Point>

    ghost predicate Valid()
      reads this
    {
      Represents(chars, points)
    }

    constructor ()
      ensures Valid() && points == {} && InQuadrant(chars)
    {
      chars := map[];
      points := {};
      new;
      forall p: Point
        ensures !Lit(chars, DotOf(p))
      {
        NoBits(DotOf(p).mask);
      }
    }

    method Set(x: int, y: int)
      requires Valid()
      modifies this
      ensures Valid() && points == old(points) + {Canon(Point(x, y))}
      ensures x >= 0 && y >= 0 && InQuadrant(old(chars)) ==> InQuadrant(chars)
    {
      SetRepresents(chars, points, Point(x, y));
      hide Quo, GetPixel, Canon, Represents, WithBits;
      ghost var after := WithDot(chars, DotOf(Point(x, y)));
      var px, py := Quo(x, 2), Quo(y, 4);
      if py !in chars {
        chars := chars[py := map[]];
      }
      var val := if px in chars[py] then chars[py][px] else 0;
      var mapv := GetPixel(y, x);
      chars := chars[py := chars[py][px := WithBits(val, mapv)]];
      assert chars == after;
      points := points + {Canon(Point(x, y))};
      assert x >= 0 ==> Quo(x, 2) >= 0 by {
        QuoOfNat(x, 2);
      }
      assert y >= 0 ==> Quo(y, 4) >= 0 by {
        QuoOfNat(y, 4);
      }
    }

    method UnSet(x: int, y: int)
      requires Valid()
      modifies this
      ensures Valid() && points == old(points) - {Canon(UnSetTarget(Point(x, y)))}
    {
      ghost var target := UnSetTarget(Point(x, y));
      UnSetAddresses(Point(x, y));
      ClearRepresents(chars, points, target);
      hide Quo, GetPixel, DotOf, Canon, UnSetTarget, Represents, WithoutBits;
      ghost var after := WithoutDot(chars, DotOf(target));
      var px, py := Quo(x, 2), Quo(y, 4);
      var ax, ay := Abs(x), Abs(y);
      if py !in chars {
        chars := chars[py := map[]];
      }
      var val := if px in chars[py] then chars[py][px] else 0;
      chars := chars[py := chars[py][px := WithoutBits(val, GetPixel(ay, ax))]];
      assert chars == after;
      points := points - {Canon(target)};
    }

    method Toggle(x: int, y: int)
      requires Valid()
      modifies this
      ensures Valid()
      ensures points == if Canon(Point(x, y)) in old(points)
                        then old(points) - {Canon(UnSetTarget(Point(x, y)))}
                        else old(points) + {Canon(Point(x, y))}
    {
      hide Quo, GetPixel, Canon, UnSetTarget, CellAt, HasBit;
      assert Lit(chars, DotOf(Point(x, y))) <==> Canon(Point(x, y)) in points;
      if HasBit(CellAt(chars, Quo(y, 4), Quo(x, 2)), GetPixel(y, x)) {
        UnSet(x, y);
      } else {
        Set(x, y);
      }
    }

    /** Negative remainders would index `pixel_map` out of range. */
    function Get(x: int, y: int): (lit: bool)
      requires Valid()
      requires Rem(y, 4) >= 0 && Rem(x, 2) >= 0
      reads this
      ensures lit <==> Canon(Point(x, y)) in points
    {
      PlainPixel(x, y);
      assert Lit(chars, DotOf(Point(x, y))) <==> Canon(Point(x, y)) in points by {
        hide Canon, Quo, GetPixel, HasBit, CellAt;
      }
      HasBit(CellAt(chars, Quo(y, 4), Quo(x, 2)), PixelMap(Rem(y, 4), Rem(x, 2)))
    }

    method DrawLine(x1: int, y1: int, x2: int, y2: int)
      requires Valid()
      modifies this
      ensures Valid()
      ensures points == old(points) + (set p | p in LinePoints(Point(x1, y1), Point(x2, y2)) :: Canon(p))
      ensures InQuadrant(old(chars)) && NonNegative(LinePoints(Point(x1, y1), Point(x2, y2))) ==> InQuadrant(chars)
    {
      hide LinePoints, Canon, InQuadrant, Represents;
      var line := Line(x1, y1, x2, y2);
      for i := 0 to |line|
        invariant Valid()
        invariant points == old(points) + (set p | p in line[..i] :: Canon(p))
        invariant InQuadrant(old(chars)) && NonNegative(line) ==> InQuadrant(chars)
      {
        Set(line[i].x, line[i].y);
        assert line[..i + 1] == line[..i] + [line[i]];
      }
      assert line[..|line|] == line;
    }

    method MaxY() returns (y: int)
      ensures y % 4 == 0 && IsGreatest(chars.Keys, y / 4)
    {
      var max := GreatestOf({}, chars.Keys, 0);
      assert {} + chars.Keys == chars.Keys;
      return max * 4;
    }

    method MinY() returns (y: int)
      ensures y % 4 == 0 && IsLeast(chars.Keys, y / 4)
    {
      var min := LeastOf({}, chars.Keys, 0);
      assert {} + chars.Keys == chars.Keys;
      return min * 4;
    }

    method MaxX() returns (x: int)
      ensures x % 2 == 0 && IsGreatest(Columns(chars), x / 2)
    {
      hide ColumnsOf;
      var max, rows := 0, chars.Keys;
      NoColumns(chars);
      while rows != {}
        invariant rows <= chars.Keys && IsGreatest(ColumnsOf(chars, chars.Keys - rows), max)
        decreases |rows|
      {
        var row := NextKey(rows);
        MoreColumns(chars, chars.Keys - rows, row);
        max := GreatestOf(ColumnsOf(chars, chars.Keys - rows), chars[row].Keys, max);
        assert chars.Keys - (rows - {row}) == chars.Keys - rows + {row};
        rows := rows - {row};
      }
      assert chars.Keys - rows == chars.Keys;
      return max * 2;
    }

    method MinX() returns (x: int)
      ensures x % 2 == 0 && IsLeast(Columns(chars), x / 2)
    {
      hide ColumnsOf;
      var min, rows := 0, chars.Keys;
      NoColumns(chars);
      while rows != {}
        invariant rows <= chars.Keys && IsLeast(ColumnsOf(chars, chars.Keys - rows), min)
        decreases |rows|
      {
        var row := NextKey(rows);
        MoreColumns(chars, chars.Keys - rows, row);
        min := LeastOf(ColumnsOf(chars, chars.Keys - rows), chars[row].Keys, min);
        assert chars.Keys - (rows - {row}) == chars.Keys - rows + {row};
        rows := rows - {row};
      }
      assert chars.Keys - rows == chars.Keys;
      return min * 2;
    }

    /** The runes of a view, row by row. */
    method Rows(minX: int, minY: int, maxX: int, maxY: int) returns (ret: seq<seq<Rune>>)
      ensures ret == View(chars, Quo(minX, 2), Quo(minY, 4), Quo(maxX, 2), Quo(maxY, 4))
    {
      var minrow, maxrow := Quo(minY, 4), Quo(maxY, 4);
      var mincol, maxcol := Quo(minX, 2), Quo(maxX, 2);
      ret := [];
      var rownum := minrow;
      while rownum < maxrow + 1
        invariant minrow <= rownum <= Max(minrow, maxrow + 1)
        invariant |ret| == rownum - minrow
        invariant forall i :: 0 <= i < |ret| ==> ret[i] == ViewRow(chars, mincol, maxcol, minrow + i)
      {
        var row: seq<Rune> := [];
        var x := mincol;
        while x < maxcol + 1
          invariant mincol <= x <= Max(mincol, maxcol + 1)
          invariant |row| == x - mincol
          invariant forall j :: 0 <= j < |row| ==>
                      row[j] == BrailleOf(CellAt(chars, rownum, mincol + j))
        {
          var cell := CellAt(chars, rownum, x);
          row := row + [cell + BRAILLE_CHAR_OFFSET];
          x := x + 1;
        }
        assert row == ViewRow(chars, mincol, maxcol, rownum);
        ret := ret + [row];
        rownum := rownum + 1;
      }
    }
  }

  lemma OffsetCancels(v: bv32)
    ensures BitsOf(BrailleOf(v)) == v
  {
  }

  /** Nothing is lost or added by printing: decoding the full view gives back exactly the lit points. */
  lemma FullViewDecodes(chars: Chars, points: set<Point>, mincol: int, minrow: int, maxcol: int, maxrow: int)
    requires Represents(chars, points)
    requires IsLeast(Columns(chars), mincol) && IsGreatest(Columns(chars), maxcol)
    requires IsLeast(chars.Keys, minrow) && IsGreatest(chars.Keys, maxrow)
    ensures forall p: Point :: Shown(View(chars, mincol, minrow, maxcol, maxrow), mincol, minrow, p)
                               <==> Canon(p) in points
  {
    var rows := View(chars, mincol, minrow, maxcol, maxrow);
    forall p: Point
      ensures Shown(rows, mincol, minrow, p) <==> Lit(chars, DotOf(p))
    {
      DotDecodes(chars, mincol, minrow, maxcol, maxrow, DotOf(p));
    }
  }

  lemma DotDecodes(chars: Chars, mincol: int, minrow: int, maxcol: int, maxrow: int, d: Dot)
    requires IsLeast(Columns(chars), mincol) && IsGreatest(Columns(chars), maxcol)
    requires IsLeast(chars.Keys, minrow) && IsGreatest(chars.Keys, maxrow)
    ensures Lit(chars, d) <==> ShowsDot(View(chars, mincol, minrow, maxcol, maxrow), mincol, minrow, d)
  {
    OffsetCancels(CellAt(chars, d.py, d.px));
    NoBits(d.mask);
    hide HasBit, IsLeast, IsGreatest, Columns, BrailleOf, BitsOf;
    if d.py in chars && d.px in chars[d.py] {
      InView(chars, mincol, minrow, maxcol, maxrow, d);
    }
    var rows := View(chars, mincol, minrow, maxcol, maxrow);
    var i, j := d.py - minrow, d.px - mincol;
    if 0 <= i < |rows| {
      assert rows[i] == ViewRow(chars, mincol, maxcol, d.py);
    }
  }

  lemma InView(chars: Chars, mincol: int, minrow: int, maxcol: int, maxrow: int, d: Dot)
    requires IsLeast(Columns(chars), mincol) && IsGreatest(Columns(chars), maxcol)
    requires IsLeast(chars.Keys, minrow) && IsGreatest(chars.Keys, maxrow)
    requires d.py in chars && d.px in chars[d.py]
    ensures minrow <= d.py <= maxrow && mincol <= d.px <= maxcol
  {
    assert d.px in Columns(chars);
  }
}
