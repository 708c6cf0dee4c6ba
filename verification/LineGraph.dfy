/** The line graph of termui/linegraph.go: samples become dots on a braille canvas, the canvas
    becomes coloured cells on the screen, and the names of the series go on top. */
module LineGraph {
  import opened GoInt
  import opened Drawille
  import opened NaturalOrder
  import opened Pruning
  import opened SeriesDots
  import opened Painting
  import opened Labels

  // ---------------------------------------------------------------- one series

  /** The dots that the sample after the newest n of them adds. */
  ghost function SegmentDots(g: Geometry, data: seq<real>, n: nat): set<Point>
    requires 0 < n < |data|
  {
    var line := LinePoints(Spot(g, data, n - 1), Spot(g, data, n));
    set p | p in line && OnSegment(g, data, n - 1, p)
  }

  lemma DotsGrow(g: Geometry, data: seq<real>, n: nat)
    requires 0 < n < |data|
    ensures DotsOf(g, data, n + 1) == DotsOf(g, data, n) + SegmentDots(g, data, n)
  {
    hide LinePoints, Spot, OnSegment;
    forall p | p in SegmentDots(g, data, n)
      ensures p in DotsOf(g, data, n + 1)
    {
      var age: nat := n - 1;
      assert age < n + 1 - 1 && OnSegment(g, data, age, p);
    }
  }

  /** What one step of the plotting loop adds: a whole line, a clipped one, or nothing. */
  lemma SegmentKinds(g: Geometry, data: seq<real>, n: nat)
    requires Drawable(g) && 0 < n < |data|
    ensures var line := LinePoints(Spot(g, data, n - 1), Spot(g, data, n));
            SegmentDots(g, data, n) ==
              if XAt(g, n) >= 0 then PointsOf(line)
              else if XAt(g, n - 1) > 0 then Clipped(line)
              else {}
  {
    AgesGoLeft(g, n - 1, n);
    hide LinePoints, Spot, XAt;
  }

  lemma NothingBehindTheWall(g: Geometry, data: seq<real>, n: nat)
    requires 0 < n < |data| && XAt(g, n - 1) < 0
    ensures SegmentDots(g, data, n) == {}
  {
    hide LinePoints, Spot, XAt;
  }

  /** Beyond the first sample left of the wall nothing is drawn. */
  lemma {:induction false} NothingBeyondTheWall(g: Geometry, data: seq<real>, n: nat, more: nat)
    requires Drawable(g) && 0 < n <= more <= |data| && XAt(g, n - 1) < 0
    ensures DotsOf(g, data, more) == DotsOf(g, data, n)
    decreases more
  {
    hide DotsOf, SegmentDots, XAt;
    if n < more {
      NothingBeyondTheWall(g, data, n, more - 1);
      DotsGrow(g, data, more - 1);
      AgesGoLeft(g, n - 1, more - 2);
      NothingBehindTheWall(g, data, more - 1);
    }
  }

  lemma SegmentOnBoard(g: Geometry, data: seq<real>, n: nat, colors: array2<Color>)
    requires Drawable(g) && InPercent(data) && 0 < n < |data| && XAt(g, n - 1) >= 0
    requires colors.Length0 == g.dx + 2 && colors.Length1 == g.dy + 2
    ensures var line := LinePoints(Spot(g, data, n - 1), Spot(g, data, n));
            if XAt(g, n) >= 0 then AllOnBoard(colors, line) && NonNegative(line)
            else forall p :: p in line && p.x > 0 ==> OnBoard(colors, p)
  {
    var a, b := Spot(g, data, n - 1), Spot(g, data, n);
    LineIsDigital(a, b);
    DigitalLineShape(a, b, LinePoints(a, b));
    SpotRange(g, data[|data| - n]);
    SpotRange(g, data[|data| - 1 - n]);
    AgesGoLeft(g, n - 1, n);
    AgesGoLeft(g, 0, n - 1);
    hide LinePoints, YAt, XAt, IsDigitalLine;
    forall p | p in LinePoints(a, b) && p.x >= 0
      ensures OnBoard(colors, p)
    {
    }
    forall p | p in LinePoints(a, b) && XAt(g, n) >= 0
      ensures p.x >= 0 && p.y >= 0
    {
    }
  }

  predicate ReachesWall(g: Geometry, data: seq<real>) {
    data != [] && XAt(g, |data| - 1) < 0
  }

  /** The samples a draw leaves behind. */
  function Kept(g: Geometry, data: seq<real>): seq<real>
    requires g.dx >= 1
  {
    if ReachesWall(g, data) then Prune(data, g.dx) else data
  }

  lemma AtLeast(n: nat, scale: int)
    requires scale >= 1
    ensures n * scale >= n
  {
  }

  lemma SampleSpot(g: Geometry, data: seq<real>, i: nat)
    requires i < |data|
    ensures Point(XAt(g, |data| - 1 - i), YAt(g, data[i])) == Spot(g, data, |data| - 1 - i)
  {
  }

  /** With a positive scale the four widths alone decide. */
  lemma KeptIsPrune(g: Geometry, data: seq<real>)
    requires Drawable(g) && g.scale >= 1
    ensures Kept(g, data) == Prune(data, g.dx)
  {
    if |data| > 4 * g.dx {
      AtLeast(|data| - 1, g.scale);
    }
  }

  lemma FoldedAlready(line: seq<Point>)
    requires NonNegative(line)
    ensures (set p | p in line :: Canon(p)) == PointsOf(line)
  {
    forall p | p in line
      ensures Canon(p) == p
    {
    }
    assert forall p :: p in PointsOf(line) ==> p in (set q | q in line :: Canon(q));
  }

  /** Plots one series from its newest sample back to the wall. */
  method PlotSeries(g: Geometry, data: seq<real>, c: Canvas, colors: array2<Color>, color: Color)
    returns (kept: seq<real>)
    requires Drawable(g) && InPercent(data)
    requires c.Valid() && InQuadrant(c.chars)
    requires colors.Length0 == g.dx + 2 && colors.Length1 == g.dy + 2
    modifies c, colors
    ensures c.Valid() && InQuadrant(c.chars)
    ensures c.points == old(c.points) + Dots(g, data)
    ensures GridOf(colors) == Paint(old(GridOf(colors)), CellsOf(Dots(g, data)), color)
    ensures kept == Kept(g, data)
  {
    hide GridOf, Paint, CellsOf, Represents, InQuadrant, DotsOf, SegmentDots, LinePoints, OnBoard, Clipped, PointsOf,
         XAt, YAt, Spot, Trunc, CellOf, Canon;
    ghost var grid := GridOf(colors);
    ghost var dots: set<Point> := {};
    kept := data;
    PaintMore(grid, {}, {}, color);
    NoSamplesNoDots(g, data);
    var lastY, lastX := -1, -1;
    var dx := g.dx;
    var i := |data| - 1;
    while i >= 0
      invariant -1 <= i < |data| && kept == data
      invariant lastY == -1 <==> i == |data| - 1
      invariant i < |data| - 1 ==> Point(lastX, lastY) == Spot(g, data, |data| - 2 - i)
      invariant i < |data| - 1 ==> lastX == XAt(g, |data| - 2 - i) >= 0
      invariant c.Valid() && InQuadrant(c.chars)
      invariant dots == DotsOf(g, data, |data| - 1 - i)
      invariant c.points == old(c.points) + dots
      invariant GridOf(colors) == Paint(grid, CellsOf(dots), color)
      decreases i
    {
      ghost var n := |data| - 1 - i;
      var x := XAt(g, |data| - 1 - i);
      var y := YAt(g, data[i]);
      SpotRange(g, data[i]);
      SampleSpot(g, data, i);
      if n > 0 {
        DotsGrow(g, data, n);
        SegmentKinds(g, data, n);
        SegmentOnBoard(g, data, n, colors);
        AgesGoLeft(g, n - 1, n);
      } else {
        FirstSample(g, data, colors);
      }
      if x < 0 {
        if x > -g.scale {
          var line := Line(lastX, lastY, x, y);
          DrawToWall(c, colors, line, color);
          PaintMore(grid, dots, Clipped(line), color);
          dots := dots + Clipped(line);
        }
        assert dots == DotsOf(g, data, n + 1);
        if |data| > 4 * dx {
          kept := data[dx - 1..];
        }
        NothingBeyondTheWall(g, data, n + 1, |data|);
        AgesGoLeft(g, n, |data| - 1);
        break;
      }
      if lastY == -1 {
        c.Set(x, y);
        PaintDot(colors, Point(x, y), color);
        PaintMore(grid, dots, {Point(x, y)}, color);
        dots := dots + {Point(x, y)};
      } else {
        c.DrawLine(lastX, lastY, x, y);
        var line := Line(lastX, lastY, x, y);
        PaintLine(colors, line, color);
        FoldedAlready(line);
        PaintMore(grid, dots, PointsOf(line), color);
        dots := dots + PointsOf(line);
      }
      lastX, lastY := x, y;
      i := i - 1;
    }
  }

  lemma NoSamplesNoDots(g: Geometry, data: seq<real>)
    ensures DotsOf(g, data, 0) == {}
  {
    hide LinePoints, OnSegment;
  }

  lemma FirstSample(g: Geometry, data: seq<real>, colors: array2<Color>)
    requires Drawable(g) && InPercent(data) && data != []
    requires colors.Length0 == g.dx + 2 && colors.Length1 == g.dy + 2
    ensures var p := Spot(g, data, 0);
            XAt(g, 0) == 2 * g.dx + 1 && OnBoard(colors, p) && Canon(p) == p && p.x >= 0 && p.y >= 3
            && DotsOf(g, data, 1) == {p}
  {
    SpotRange(g, data[|data| - 1]);
    hide LinePoints, OnSegment, YAt;
  }

  // ---------------------------------------------------------------- all series

  type Series = map<string, seq<real>>

  function SamplesOf(data: Series, name: string): seq<real> {
    if name in data then data[name] else []
  }

  predicate AllInPercent(data: Series) {
    forall name :: name in data ==> InPercent(data[name])
  }

  /** The dots of the series from the i-th on. */
  ghost function AllDots(g: Geometry, data: Series, names: seq<string>, i: nat): set<Point>
    requires i <= |names|
    decreases |names| - i
  {
    if i == |names| then {} else AllDots(g, data, names, i + 1) + Dots(g, SamplesOf(data, names[i]))
  }

  function ColorFor(colors: map<string, Color>, fallback: Color, name: string): Color {
    if name in colors then colors[name] else fallback
  }

  /** The grid after painting the last series first, down to the i-th. */
  ghost function PaintedFrom(g: Geometry, data: Series, names: seq<string>, colors: map<string, Color>,
                             fallback: Color, i: nat): Grid
    requires i <= |names|
    decreases |names| - i
  {
    if i == |names| then BlankGrid(g)
    else Paint(PaintedFrom(g, data, names, colors, fallback, i + 1),
               CellsOf(Dots(g, SamplesOf(data, names[i]))), ColorFor(colors, fallback, names[i]))
  }

  /** The first series of the list with a dot in a cell decides the cell's colour. */
  lemma {:induction false} FirstSeriesOnTop(g: Geometry, data: Series, names: seq<string>, colors: map<string, Color>,
                                            fallback: Color, i: nat, top: nat, cell: Point)
    requires i <= top < |names| && cell in BlankGrid(g)
    requires cell in CellsOf(Dots(g, SamplesOf(data, names[top])))
    requires forall k :: i <= k < top ==> cell !in CellsOf(Dots(g, SamplesOf(data, names[k])))
    ensures cell in PaintedFrom(g, data, names, colors, fallback, i)
    ensures PaintedFrom(g, data, names, colors, fallback, i)[cell] == ColorFor(colors, fallback, names[top])
    decreases top - i
  {
    if i < top {
      FirstSeriesOnTop(g, data, names, colors, fallback, i + 1, top, cell);
    } else {
      StaysOnGrid(g, data, names, colors, fallback, i + 1);
    }
  }

  lemma {:induction false} StaysOnGrid(g: Geometry, data: Series, names: seq<string>, colors: map<string, Color>,
                                       fallback: Color, i: nat)
    requires i <= |names|
    ensures PaintedFrom(g, data, names, colors, fallback, i).Keys == BlankGrid(g).Keys
    decreases |names| - i
  {
    if i < |names| {
      StaysOnGrid(g, data, names, colors, fallback, i + 1);
    }
  }

  lemma {:induction false} AllDotsInRange(g: Geometry, data: Series, names: seq<string>, i: nat)
    requires Drawable(g) && AllInPercent(data) && i <= |names|
    ensures forall p :: p in AllDots(g, data, names, i) ==> InRange(g, p)
    decreases |names| - i
  {
    if i < |names| {
      AllDotsInRange(g, data, names, i + 1);
      var samples := SamplesOf(data, names[i]);
      DotsInRange(g, samples, |samples|);
      hide InRange;
    }
  }

  predicate Inside(g: Geometry, origin: Point, q: Point) {
    0 <= q.x - origin.x < g.dx && 0 <= q.y - origin.y < g.dy
  }

  predicate NothingListed(data: Series, names: seq<string>) {
    forall k :: 0 <= k < |names| ==> SamplesOf(data, names[k]) == []
  }

  /** Every braille cell of a graph at least one cell high is written inside the inner rectangle. */
  lemma HighGraphPrintsInside(g: Geometry, data: Series, names: seq<string>, grid: Grid, origin: Point)
    requires Drawable(g) && g.dy >= 1 && AllInPercent(data)
    ensures forall q :: q in Plotted(AllDots(g, data, names, 0), grid, origin) ==> Inside(g, origin, q)
  {
    AllDotsInRange(g, data, names, 0);
    hide PlotCell, AllDots;
  }

  /** A graph without rows prints as soon as a listed series has a sample, and all that it prints is on
      the row of its corner or on the one above. */
  lemma FlatGraphPrintsOutside(g: Geometry, data: Series, names: seq<string>, grid: Grid, origin: Point)
    requires Drawable(g) && g.dy == 0 && AllInPercent(data)
    ensures var screen := Plotted(AllDots(g, data, names, 0), grid, origin);
            && (screen != map[] <==> !NothingListed(data, names))
            && forall q :: q in screen ==> -1 <= q.y - origin.y <= 0 && !Inside(g, origin, q)
  {
    hide PlotCell, AllDots, NothingListed;
    AllDotsInRange(g, data, names, 0);
    PrintsIffListed(g, data, names, grid, origin);
  }

  lemma PrintsIffListed(g: Geometry, data: Series, names: seq<string>, grid: Grid, origin: Point)
    requires Drawable(g)
    ensures Plotted(AllDots(g, data, names, 0), grid, origin) != map[] <==> !NothingListed(data, names)
  {
    hide AllDots, PlotCell, Spot;
    var points := AllDots(g, data, names, 0);
    if NothingListed(data, names) {
      NoDots(g, data, names, 0);
      assert Plotted({}, grid, origin) == map[];
    } else {
      var k :| 0 <= k < |names| && SamplesOf(data, names[k]) != [];
      NewestSampleShows(g, data, names, 0, k);
      var p := Spot(g, SamplesOf(data, names[k]), 0);
      assert CellOf(p) in CellsOf(points);
      assert ScreenPos(origin, CellOf(p)) in Plotted(points, grid, origin);
    }
  }

  lemma {:induction false} NoDots(g: Geometry, data: Series, names: seq<string>, i: nat)
    requires NothingListed(data, names) && i <= |names|
    ensures AllDots(g, data, names, i) == {}
    decreases |names| - i
  {
    if i < |names| {
      NoDots(g, data, names, i + 1);
      assert Dots(g, []) == {};
    }
  }

  lemma NewestIsDrawn(g: Geometry, data: seq<real>)
    requires Drawable(g) && data != []
    ensures Spot(g, data, 0) in Dots(g, data) && CellOf(Spot(g, data, 0)).x == g.dx
  {
    hide LinePoints, OnSegment, YAt;
  }

  lemma {:induction false} NewestSampleShows(g: Geometry, data: Series, names: seq<string>, i: nat, k: nat)
    requires Drawable(g) && i <= k < |names| && SamplesOf(data, names[k]) != []
    ensures var p := Spot(g, SamplesOf(data, names[k]), 0);
            p in AllDots(g, data, names, i) && CellOf(p).x == g.dx
    decreases k - i
  {
    if i < k {
      NewestSampleShows(g, data, names, i + 1, k);
    } else {
      NewestIsDrawn(g, SamplesOf(data, names[k]));
    }
    hide Dots, Spot, CellOf;
  }

  /** The graph keeps to its rectangle exactly if it has a row, or no sample to draw. */
  lemma PlottedInside(g: Geometry, data: Series, names: seq<string>, grid: Grid, origin: Point)
    requires Drawable(g) && AllInPercent(data)
    ensures (forall q :: q in Plotted(AllDots(g, data, names, 0), grid, origin) ==> Inside(g, origin, q))
       <==> g.dy >= 1 || NothingListed(data, names)
  {
    hide Inside, NothingListed, Plotted, AllDots;
    if g.dy >= 1 {
      HighGraphPrintsInside(g, data, names, grid, origin);
    } else {
      FlatGraphPrintsOutside(g, data, names, grid, origin);
      var screen := Plotted(AllDots(g, data, names, 0), grid, origin);
      if screen != map[] {
        var q :| q in screen;
        assert !Inside(g, origin, q);
      }
    }
  }

  lemma CellsOnBoard(g: Geometry, points: set<Point>)
    requires Drawable(g) && forall p :: p in points ==> InRange(g, p)
    ensures AllNonNegative(points) && Within(points, g.dx + 2, g.dy + 2)
  {
  }

  lemma PlottedKeys(few: set<Point>, many: set<Point>, fewGrid: Grid, grid: Grid, origin: Point)
    requires few <= many
    ensures Plotted(few, fewGrid, origin).Keys <= Plotted(many, grid, origin).Keys
  {
    hide PlotCell, CellOf;
    assert CellsOf(few) <= CellsOf(many);
    hide CellsOf;
    forall q | q in Plotted(few, fewGrid, origin)
      ensures q in Plotted(many, grid, origin)
    {
      var cell :| cell in CellsOf(few) && cell.x >= 1 && q == ScreenPos(origin, cell);
      assert cell in CellsOf(many);
    }
  }

  /** Redrawing more dots hides what was drawn with fewer. */
  lemma PlottedOver(few: set<Point>, many: set<Point>, fewGrid: Grid, grid: Grid, origin: Point, under: Cells)
    requires few <= many
    ensures under + Plotted(few, fewGrid, origin) + Plotted(many, grid, origin) == under + Plotted(many, grid, origin)
  {
    PlottedKeys(few, many, fewGrid, grid, origin);
    hide Plotted;
  }

  ghost function BlankGrid(g: Geometry): Grid {
    map x, y | 0 <= x < g.dx + 2 && 0 <= y < g.dy + 2 :: Point(x, y) := 0
  }

  /** The samples left once the series of the given names have been drawn. */
  function KeptOf(g: Geometry, data: Series, names: set<string>): Series
    requires g.dx >= 1
  {
    map name | name in data :: if name in names then Kept(g, data[name]) else data[name]
  }

  /** Are the listed series those there are samples of? */
  predicate Lists(names: seq<string>, data: Series) {
    multiset(names) == multiset(data.Keys)
  }

  /** If not, what is missing from the list is not drawn, whatever its samples. */
  lemma {:induction false} UnlistedIsNotDrawn(g: Geometry, data: Series, names: seq<string>, i: nat, name: string,
                                              samples: seq<real>)
    requires i <= |names| && name !in names
    ensures AllDots(g, data[name := samples], names, i) == AllDots(g, data, names, i)
    decreases |names| - i
  {
    hide Dots;
    if i < |names| {
      UnlistedIsNotDrawn(g, data, names, i + 1, name, samples);
    }
  }

  /** A series that takes the place of another is not listed: the number of series has not changed. */
  lemma ReplacedSeriesIsUnlisted(names: seq<string>, data: Series, gone: string, name: string, samples: seq<real>)
    requires Lists(names, data) && gone in data && name !in data
    ensures var replaced := (data - {gone})[name := samples];
            |names| == |replaced| && name !in names && !Lists(names, replaced)
  {
    var replaced := (data - {gone})[name := samples];
    assert data.Keys == (data - {gone}).Keys + {gone};
    assert replaced.Keys == (data - {gone}).Keys + {name};
    assert |names| == |multiset(names)| == |multiset(data.Keys)|;
    assert name in names <==> name in multiset(names);
    assert name in multiset(replaced.Keys);
  }

  /** While series are only added, a list that is right either stays right or is made anew. */
  lemma AddedSeriesAreListed(names: seq<string>, data: Series, more: Series)
    requires Lists(names, data) && data.Keys <= more.Keys
    ensures |names| != |more| || Lists(names, more)
  {
    assert |names| == |multiset(names)| == |multiset(data.Keys)| == |data.Keys|;
    if |names| == |more| {
      SameSize(data.Keys, more.Keys);
    }
  }

  lemma SameSize<T>(a: set<T>, b: set<T>)
    requires a <= b && |a| == |b|
    ensures a == b
  {
    assert |b - a| == |b| - |a| == 0;
    assert b == a + (b - a);
  }

  function WithFallback(colors: map<string, Color>, fallback: Color, names: set<string>): map<string, Color> {
    (map name | name in names :: fallback) + colors
  }

  function NamesFrom(names: seq<string>, i: nat): set<string>
    requires i <= |names|
  {
    set name | name in names[i..]
  }

  // ---------------------------------------------------------------- the widget

  class LineGraph {
    var origin: Point
    var innerDx: int
    var innerDy: int
    var data: Series
    var labels: map<string, string>
    var horizontalScale: int
    var lineColors: map<string, Color>
    var labelStyles: map<string, Modifier>
    var defaultLineColor: Color
    var seriesList: seq<string>

    function Shape(): Geometry
      reads this`innerDx, this`innerDy, this`horizontalScale
    {
      Geometry(innerDx, innerDy, horizontalScale)
    }

    ghost predicate Valid()
      reads this
    {
      Drawable(Shape()) && AllInPercent(data) && Distinct(seriesList)
    }

    constructor (origin: Point, dx: int, dy: int)
      requires dx >= 1 && dy >= 0
      ensures Valid() && data == map[] && seriesList == []
      ensures Shape() == Geometry(dx, dy, 5) && this.origin == origin
    {
      this.origin, innerDx, innerDy := origin, dx, dy;
      data, labels, lineColors, labelStyles := map[], map[], map[], map[];
      horizontalScale, defaultLineColor, seriesList := 5, 0, [];
    }

    /** Lists the series anew when their number has changed. */
    method RefreshSeries()
      requires Distinct(seriesList)
      modifies this`seriesList
      ensures Distinct(seriesList)
      ensures |old(seriesList)| == |data| ==> seriesList == old(seriesList)
      ensures |old(seriesList)| != |data| ==>
                multiset(seriesList) == multiset(data.Keys) && (AllSettled(seriesList) ==> Sorted(seriesList))
      ensures Lists(seriesList, data) <==> |old(seriesList)| != |data| || Lists(old(seriesList), data)
    {
      if |seriesList| != |data| {
        var names, todo := [], data.Keys;
        while todo != {}
          invariant todo <= data.Keys
          invariant multiset(names) == multiset(data.Keys - todo)
          decreases |todo|
        {
          var name := NextKey(todo);
          assert data.Keys - (todo - {name}) == data.Keys - todo + {name};
          names := names + [name];
          todo := todo - {name};
        }
        assert data.Keys - todo == data.Keys;
        seriesList := Sort(names);
        if AllSettled(seriesList) {
          SettledPermuted(seriesList, names);
        }
        KeysDistinct(seriesList, data.Keys);
      }
    }

    /** Draws the lines of all series. */
    method DrawLines(buf: Buffer)
      requires Valid()
      modifies this`data, this`lineColors, buf
      ensures Valid()
      ensures data == KeptOf(Shape(), old(data), NamesFrom(seriesList, 0))
      ensures lineColors == WithFallback(old(lineColors), defaultLineColor, NamesFrom(seriesList, 0))
      ensures buf.cells == old(buf.cells) + Plotted(AllDots(Shape(), old(data), seriesList, 0),
                PaintedFrom(Shape(), old(data), seriesList, old(lineColors), defaultLineColor, 0), origin)
    {
      hide Represents, InQuadrant, GridOf, Paint, CellsOf, Plotted, Dots, AllDots, PaintedFrom, BlankGrid, KeptOf,
           NamesFrom, WithFallback, InRange, AllNonNegative, Within, InPercent, AllInPercent, Kept, Distinct, Octets;
      var g := Shape();
      ghost var before, colorsBefore, under := data, lineColors, buf.cells;
      var c := new Canvas();
      var colors := new Color[innerDx + 2, innerDy + 2]((x, y) => 0);
      assert GridOf(colors) == BlankGrid(g) by {
        StartsBlank(colors, g);
      }
      NothingDrawn(g, before, colorsBefore, defaultLineColor, seriesList);
      NothingPlotted(GridOf(colors), origin, under);
      var i := |seriesList|;
      while i > 0
        invariant 0 <= i <= |seriesList|
        invariant c.Valid() && InQuadrant(c.chars) && fresh(c) && fresh(colors)
        invariant c.points == AllDots(g, before, seriesList, i)
        invariant GridOf(colors) == PaintedFrom(g, before, seriesList, colorsBefore, defaultLineColor, i)
        invariant data == KeptOf(g, before, NamesFrom(seriesList, i))
        invariant lineColors == WithFallback(colorsBefore, defaultLineColor, NamesFrom(seriesList, i))
        invariant buf.cells == under + Plotted(c.points, GridOf(colors), origin)
      {
        i := i - 1;
        var seriesName := seriesList[i];
        StepSamples(g, before, seriesList, i);
        StepColors(colorsBefore, defaultLineColor, seriesList, i);
        StepDrawing(g, before, colorsBefore, defaultLineColor, seriesList, i);
        var seriesData := SamplesOf(data, seriesName);
        var seriesLineColor := ColorFor(lineColors, defaultLineColor, seriesName);
        if seriesName !in lineColors {
          lineColors := lineColors[seriesName := defaultLineColor];
        }
        ghost var few, fewGrid := c.points, GridOf(colors);
        var kept := PlotSeries(g, seriesData, c, colors, seriesLineColor);
        if seriesName in data {
          data := data[seriesName := kept];
        }
        CopyRows(c, colors, buf, origin);
        PlottedOver(few, c.points, fewGrid, GridOf(colors), origin, under);
      }
      KeptInPercent(g, before, NamesFrom(seriesList, 0));
    }

    /** Draws the whole graph: the lines of the listed series, the first on top, then their labels. */
    method Draw(buf: Buffer)
      requires Valid()
      modifies this`seriesList, this`data, this`lineColors, buf
      ensures Valid()
      ensures |old(seriesList)| == |old(data)| ==> seriesList == old(seriesList)
      ensures |old(seriesList)| != |old(data)| ==>
                multiset(seriesList) == multiset(old(data).Keys) && (AllSettled(seriesList) ==> Sorted(seriesList))
      ensures data == KeptOf(Shape(), old(data), NamesFrom(seriesList, 0))
      ensures lineColors == WithFallback(old(lineColors), defaultLineColor, NamesFrom(seriesList, 0))
      ensures LabelsShow(
                old(buf.cells) + Plotted(AllDots(Shape(), old(data), seriesList, 0),
                  PaintedFrom(Shape(), old(data), seriesList, old(lineColors), defaultLineColor, 0), origin),
                buf.cells, LabelTexts(seriesList, labels),
                LabelStylesOf(seriesList, old(lineColors), defaultLineColor, labelStyles), innerDy, origin)
    {
      hide AllInPercent, Distinct, KeptOf, WithFallback, NamesFrom, AllDots, PaintedFrom, Plotted, LabelsShow, Sorted,
           AllSettled, LabelTexts;
      RefreshSeries();
      ghost var colorsBefore := lineColors;
      DrawLines(buf);
      SameLabelStyles(seriesList, colorsBefore, defaultLineColor, labelStyles);
      PrintLabels(buf, LabelTexts(seriesList, labels),
                  LabelStylesOf(seriesList, lineColors, defaultLineColor, labelStyles), innerDy, origin);
    }
  }

  /** Recording the fallback colour of a series changes no label. */
  lemma SameLabelStyles(names: seq<string>, colors: map<string, Color>, fallback: Color, styles: map<string, Modifier>)
    ensures LabelStylesOf(names, WithFallback(colors, fallback, NamesFrom(names, 0)), fallback, styles)
         == LabelStylesOf(names, colors, fallback, styles)
  {
  }

  function LabelText(name: string, labels: map<string, string>): string {
    name + " " + if name in labels then labels[name] else ""
  }

  function LabelTexts(names: seq<string>, labels: map<string, string>): (texts: seq<string>)
    ensures |texts| == |names|
  {
    seq(|names|, i requires 0 <= i < |names| => LabelText(names[i], labels))
  }

  function LabelStyle(name: string, colors: map<string, Color>, fallback: Color, styles: map<string, Modifier>): Style {
    Style(ColorFor(colors, fallback, name), COLOR_CLEAR, if name in styles then styles[name] else MODIFIER_CLEAR)
  }

  function LabelStylesOf(names: seq<string>, colors: map<string, Color>, fallback: Color, styles: map<string, Modifier>)
    : (r: seq<Style>)
    ensures |r| == |names|
  {
    seq(|names|, i requires 0 <= i < |names| => LabelStyle(names[i], colors, fallback, styles))
  }

  /** A label is the name of its series, a space and the value, in the colour of the series. */
  lemma LabelLooks(names: seq<string>, labels: map<string, string>, colors: map<string, Color>, fallback: Color,
                   styles: map<string, Modifier>, i: nat)
    requires i < |names|
    ensures var text, style := LabelTexts(names, labels)[i], LabelStylesOf(names, colors, fallback, styles)[i];
            && |text| > |names[i]| && text[..|names[i]|] == names[i] && text[|names[i]|] == ' '
            && text[|names[i]| + 1..] == (if names[i] in labels then labels[names[i]] else "")
            && style.fg == (if names[i] in colors then colors[names[i]] else fallback)
            && style.modifier == (if names[i] in styles then styles[names[i]] else MODIFIER_CLEAR)
  {
  }

  lemma StartsBlank(colors: array2<Color>, g: Geometry)
    requires colors.Length0 == g.dx + 2 && colors.Length1 == g.dy + 2
    requires forall x, y :: 0 <= x < colors.Length0 && 0 <= y < colors.Length1 ==> colors[x, y] == 0
    ensures GridOf(colors) == BlankGrid(g)
  {
  }

  lemma OneMoreName(names: seq<string>, i: nat)
    requires i < |names| && Distinct(names)
    ensures NamesFrom(names, i) == NamesFrom(names, i + 1) + {names[i]}
    ensures names[i] !in NamesFrom(names, i + 1)
  {
    assert names[i..] == [names[i]] + names[i + 1..];
    forall k | i < k < |names|
      ensures names[i + 1..][k - i - 1] == names[k] != names[i]
    {
    }
  }

  /** What drawing the i-th series leaves of the samples. */
  lemma StepSamples(g: Geometry, data: Series, names: seq<string>, i: nat)
    requires Drawable(g) && i < |names| && Distinct(names)
    ensures var kept, name := KeptOf(g, data, NamesFrom(names, i + 1)), names[i];
            && SamplesOf(kept, name) == SamplesOf(data, name)
            && KeptOf(g, data, NamesFrom(names, i)) ==
                 if name in kept then kept[name := Kept(g, SamplesOf(data, name))] else kept
  {
    OneMoreName(names, i);
    hide Kept, NamesFrom, Distinct;
  }

  /** What it adds to the colours. */
  lemma StepColors(colors: map<string, Color>, fallback: Color, names: seq<string>, i: nat)
    requires i < |names| && Distinct(names)
    ensures var recorded, name := WithFallback(colors, fallback, NamesFrom(names, i + 1)), names[i];
            && ColorFor(recorded, fallback, name) == ColorFor(colors, fallback, name)
            && WithFallback(colors, fallback, NamesFrom(names, i)) ==
                 if name in recorded then recorded else recorded[name := fallback]
  {
    OneMoreName(names, i);
    FallbackForOneMore(colors, fallback, NamesFrom(names, i + 1), names[i]);
    hide NamesFrom, Distinct, WithFallback;
  }

  lemma FallbackForOneMore(colors: map<string, Color>, fallback: Color, some: set<string>, name: string)
    requires name !in some
    ensures var recorded := WithFallback(colors, fallback, some);
            && ColorFor(recorded, fallback, name) == ColorFor(colors, fallback, name)
            && WithFallback(colors, fallback, some + {name}) ==
                 if name in recorded then recorded else recorded[name := fallback]
  {
  }

  lemma StepDrawing(g: Geometry, data: Series, colors: map<string, Color>, fallback: Color, names: seq<string>, i: nat)
    requires Drawable(g) && AllInPercent(data) && i < |names|
    ensures var samples := SamplesOf(data, names[i]);
            && InPercent(samples)
            && AllDots(g, data, names, i) == AllDots(g, data, names, i + 1) + Dots(g, samples)
            && PaintedFrom(g, data, names, colors, fallback, i) ==
                 Paint(PaintedFrom(g, data, names, colors, fallback, i + 1), CellsOf(Dots(g, samples)),
                       ColorFor(colors, fallback, names[i]))
    ensures var points := AllDots(g, data, names, i);
            AllNonNegative(points) && Within(points, g.dx + 2, g.dy + 2)
  {
    AllDotsInRange(g, data, names, i);
    CellsOnBoard(g, AllDots(g, data, names, i));
    hide Dots, Paint, CellsOf, InRange, Within;
  }

  lemma KeptInPercent(g: Geometry, data: Series, names: set<string>)
    requires Drawable(g) && AllInPercent(data)
    ensures AllInPercent(KeptOf(g, data, names))
  {
  }

  lemma NothingDrawn(g: Geometry, data: Series, colors: map<string, Color>, fallback: Color, names: seq<string>)
    requires Drawable(g)
    ensures AllDots(g, data, names, |names|) == {}
    ensures PaintedFrom(g, data, names, colors, fallback, |names|) == BlankGrid(g)
    ensures KeptOf(g, data, NamesFrom(names, |names|)) == data
    ensures WithFallback(colors, fallback, NamesFrom(names, |names|)) == colors
  {
  }

  lemma NothingPlotted(grid: Grid, origin: Point, under: Cells)
    ensures under + Plotted({}, grid, origin) == under
  {
    assert Plotted({}, grid, origin) == map[];
  }

  lemma KeysDistinct(names: seq<string>, keys: set<string>)
    requires multiset(names) == multiset(keys)
    ensures Distinct(names)
  {
    forall i, j | 0 <= i < j < |names|
      ensures names[i] != names[j]
    {
      assert names == names[..i] + [names[i]] + names[i + 1..];
      assert names[j] == names[i + 1..][j - i - 1];
      assert multiset(names)[names[i]] <= 1;
    }
  }

  // ---------------------------------------------------------------- whole runs

  datatype Event =
    | Append(name: string, value: real)
    | Redraw(names: set<string>)
    | Resize(dx: int, dy: int)
    | Rescale(scale: int)

  datatype State = State(g: Geometry, data: Series)

  function Appended(data: Series, name: string, value: real): Series {
    data[name := SamplesOf(data, name) + [value]]
  }

  predicate Possible(e: Event, narrowest: int, widest: int) {
    match e
    case Resize(dx, dy) => narrowest <= dx <= widest
    case Rescale(scale) => scale >= 1
    case _ => true
  }

  /** One event; a redraw prunes the series it draws, unless pruning is turned off. */
  function Step(s: State, e: Event, pruning: bool): State {
    match e
    case Append(name, value) => s.(data := Appended(s.data, name, value))
    case Redraw(names) => if pruning && s.g.dx >= 1 then s.(data := KeptOf(s.g, s.data, names)) else s
    case Resize(dx, dy) => s.(g := Geometry(dx, dy, s.g.scale))
    case Rescale(scale) => s.(g := Geometry(s.g.dx, s.g.dy, scale))
  }

  function Run(s: State, events: seq<Event>, pruning: bool): State {
    if events == [] then s else Step(Run(s, events[..|events| - 1], pruning), events[|events| - 1], pruning)
  }

  /** The same screen, and series that agree but for old samples. */
  ghost predicate Agree(pruned: State, full: State, narrowest: int, widest: int) {
    && pruned.g == full.g && narrowest <= full.g.dx <= widest && full.g.scale >= 1
    && pruned.data.Keys == full.data.Keys
    && forall name :: name in full.data ==> Keeps(pruned.data[name], full.data[name], NarrowestCut(narrowest))
  }

  lemma StepAgrees(pruned: State, full: State, e: Event, narrowest: int, widest: int)
    requires 1 <= narrowest && Possible(e, narrowest, widest) && Agree(pruned, full, narrowest, widest)
    ensures Agree(Step(pruned, e, true), Step(full, e, false), narrowest, widest)
  {
    hide Keeps;
    match e
    case Append(name, value) =>
      AppendKeeps(SamplesOf(pruned.data, name), SamplesOf(full.data, name), NarrowestCut(narrowest), value) by {
        if name !in full.data {
          KeepsItself<real>([], NarrowestCut(narrowest));
        }
      }
    case Redraw(names) =>
      forall name | name in full.data
        ensures Keeps(Kept(pruned.g, pruned.data[name]), full.data[name], NarrowestCut(narrowest))
      {
        PruneKeeps(pruned.data[name], full.data[name], narrowest, pruned.g.dx);
      }
    case _ =>
  }

  lemma KeepsItself<T>(data: seq<T>, narrowest: int)
    ensures Keeps(data, data, narrowest)
  {
    assert data[|data| - |data|..] == data;
  }

  /** A run at the given widths: it starts with one, and takes on no other. */
  predicate AtWidths(s: State, events: seq<Event>, narrowest: int, widest: int) {
    && narrowest <= s.g.dx <= widest && s.g.scale >= 1
    && forall i :: 0 <= i < |events| ==> Possible(events[i], narrowest, widest)
  }

  lemma {:induction false} RunAgrees(s: State, events: seq<Event>, narrowest: int, widest: int)
    requires 1 <= narrowest && AtWidths(s, events, narrowest, widest)
    ensures Agree(Run(s, events, true), Run(s, events, false), narrowest, widest)
  {
    if events == [] {
      forall name | name in s.data
        ensures Keeps(s.data[name], s.data[name], NarrowestCut(narrowest))
      {
        KeepsItself(s.data[name], NarrowestCut(narrowest));
      }
    } else {
      var front := events[..|events| - 1];
      RunAgrees(s, front, narrowest, widest);
      StepAgrees(Run(s, front, true), Run(s, front, false), events[|events| - 1], narrowest, widest);
    }
  }

  // ---------------------------------------------------------------- pictures

  /** What a graph prints of the given series over an empty screen. */
  ghost function Picture(g: Geometry, data: Series, names: seq<string>, colors: map<string, Color>, fallback: Color,
                         origin: Point): Cells {
    Plotted(AllDots(g, data, names, 0), PaintedFrom(g, data, names, colors, fallback, 0), origin)
  }

  ghost predicate SameInPrint(g: Geometry, some: Series, others: Series) {
    forall name :: InPrint(Dots(g, SamplesOf(some, name))) == InPrint(Dots(g, SamplesOf(others, name)))
  }

  lemma {:induction false} SameDotsInPrint(g: Geometry, some: Series, others: Series, names: seq<string>, i: nat)
    requires i <= |names| && SameInPrint(g, some, others)
    ensures InPrint(AllDots(g, some, names, i)) == InPrint(AllDots(g, others, names, i))
    decreases |names| - i
  {
    hide Dots;
    if i < |names| {
      SameDotsInPrint(g, some, others, names, i + 1);
      InPrintOfUnion(AllDots(g, some, names, i + 1), Dots(g, SamplesOf(some, names[i])));
      InPrintOfUnion(AllDots(g, others, names, i + 1), Dots(g, SamplesOf(others, names[i])));
    }
  }

  lemma InPrintOfUnion(a: set<Point>, b: set<Point>)
    ensures InPrint(a + b) == InPrint(a) + InPrint(b)
  {
  }

  lemma SameCells(a: set<Point>, b: set<Point>)
    requires InPrint(a) == InPrint(b)
    ensures forall cell: Point :: cell.x >= 1 ==> (cell in CellsOf(a) <==> cell in CellsOf(b))
  {
    PrintedCells(a, b);
    PrintedCells(b, a);
  }

  lemma PrintedCells(a: set<Point>, b: set<Point>)
    requires InPrint(a) == InPrint(b)
    ensures forall cell :: cell in CellsOf(a) && cell.x >= 1 ==> cell in CellsOf(b)
  {
    forall cell | cell in CellsOf(a) && cell.x >= 1
      ensures cell in CellsOf(b)
    {
      var p :| p in a && CellOf(p) == cell;
      assert p.x >= 2;
      assert p in InPrint(a);
      assert p in InPrint(b);
      assert p in b;
    }
  }

  /** The same colours in all cells but the leftmost column. */
  predicate SameColors(a: Grid, b: Grid) {
    a.Keys == b.Keys && forall cell :: cell in a && cell.x >= 1 ==> a[cell] == b[cell]
  }

  lemma {:induction false} SamePaint(g: Geometry, some: Series, others: Series, names: seq<string>,
                                     colors: map<string, Color>, fallback: Color, i: nat)
    requires i <= |names| && SameInPrint(g, some, others)
    ensures SameColors(PaintedFrom(g, some, names, colors, fallback, i),
                       PaintedFrom(g, others, names, colors, fallback, i))
    decreases |names| - i
  {
    hide Dots, CellsOf;
    if i < |names| {
      SamePaint(g, some, others, names, colors, fallback, i + 1);
      SameCells(Dots(g, SamplesOf(some, names[i])), Dots(g, SamplesOf(others, names[i])));
    }
  }

  lemma SamePlotted(a: set<Point>, b: set<Point>, paint: Grid, other: Grid, origin: Point)
    requires InPrint(a) == InPrint(b) && SameColors(paint, other)
    ensures Plotted(a, paint, origin) == Plotted(b, other, origin)
  {
    SameCells(a, b);
    forall cell: Point | cell.x >= 1
      ensures PlotCell(a, paint, cell) == PlotCell(b, other, cell)
    {
      SameGlyph(a, b, cell);
      hide GlyphOf;
    }
    hide PlotCell, CellsOf, InPrint;
  }

  lemma SameGlyph(a: set<Point>, b: set<Point>, cell: Point)
    requires InPrint(a) == InPrint(b) && cell.x >= 1
    ensures GlyphOf(a, cell) == GlyphOf(b, cell)
  {
    forall p: Point | p.x >= 2
      ensures p in a <==> p in b
    {
      assert p in InPrint(a) <==> p in InPrint(b);
    }
    hide InPrint;
  }

  lemma SamePictures(g: Geometry, some: Series, others: Series, names: seq<string>, colors: map<string, Color>,
                     fallback: Color, origin: Point)
    requires SameInPrint(g, some, others)
    ensures Picture(g, some, names, colors, fallback, origin) == Picture(g, others, names, colors, fallback, origin)
  {
    hide SameInPrint, InPrint, SameColors, Plotted, AllDots, PaintedFrom;
    SameDotsInPrint(g, some, others, names, 0);
    SamePaint(g, some, others, names, colors, fallback, 0);
    SamePlotted(AllDots(g, some, names, 0), AllDots(g, others, names, 0),
                PaintedFrom(g, some, names, colors, fallback, 0),
                PaintedFrom(g, others, names, colors, fallback, 0), origin);
  }

  /** Does every picture at the end of the run look as it would had no sample ever been dropped, whichever
      series it shows and in whatever colours? */
  ghost predicate NothingMissing(s: State, events: seq<Event>) {
    var pruned, full := Run(s, events, true), Run(s, events, false);
    pruned.g == full.g && forall names, colors, fallback, origin ::
      Picture(pruned.g, pruned.data, names, colors, fallback, origin)
      == Picture(full.g, full.data, names, colors, fallback, origin)
  }

  /** At widths close enough to each other no picture shows that samples have been dropped. */
  lemma PruningLeavesPictures(s: State, events: seq<Event>, narrowest: int, widest: int)
    requires 1 <= narrowest && AtWidths(s, events, narrowest, widest) && 2 * widest <= 3 * NarrowestCut(narrowest) + 1
    ensures NothingMissing(s, events)
  {
    RunAgrees(s, events, narrowest, widest);
    var pruned, full := Run(s, events, true), Run(s, events, false);
    hide Run, Dots, AtWidths, Picture, InPrint;
    forall name
      ensures InPrint(Dots(pruned.g, SamplesOf(pruned.data, name))) == InPrint(Dots(full.g, SamplesOf(full.data, name)))
    {
      if name in full.data {
        SameRecentSamePrint(full.g, pruned.data[name], full.data[name]);
      }
    }
    forall names, colors, fallback, origin
      ensures Picture(pruned.g, pruned.data, names, colors, fallback, origin)
           == Picture(full.g, full.data, names, colors, fallback, origin)
    {
      SamePictures(full.g, pruned.data, full.data, names, colors, fallback, origin);
    }
  }

  // ---------------------------------------------------------------- a run that shows

  /** One sample too many at the given width: the ones to be cut are at the bottom, the others at the top. */
  function Cliff(n: nat): (samples: seq<real>)
    requires n >= 1
    ensures |samples| == 4 * n + 1
  {
    seq(4 * n + 1, i => if i < n - 1 then 0.0 else 100.0)
  }

  /** The line down to the last sample that is cut. */
  lemma SteepLine(a: Point, b: Point)
    requires b.x == a.x - 1 && a.y == 4 && b.y >= 11
    ensures Point(a.x, 8) in LinePoints(a, b)
  {
    var r := Steps(a, b);
    assert r == b.y - 4;
    CoordIsOnCourse(a.x, b.x, 4, r);
    CoordIsOnCourse(a.y, b.y, 4, r);
    DivBounds(4 * r, r);
    QuotientUnique(4 * r, r, 4 * r / r, 4);
    assert LinePoints(a, b)[4] == Point(Coord(a.x, b.x, 4, r), Coord(a.y, b.y, 4, r));
    hide Coord;
    assert 4 * 1 / r == 0;
  }

  lemma CliffShows(g: Geometry, n: nat)
    requires n >= 2 && g.scale == 1 && g.dy >= 2 && 2 * g.dx >= 3 * n + 2
    ensures Point(2 * g.dx - 3 * n, 8) in Dots(g, Cliff(n))
  {
    var data, age := Cliff(n), 3 * n + 1;
    HigherIsUp(g, 0.0, 100.0);
    var a, b := Spot(g, data, age), Spot(g, data, age + 1);
    assert data[|data| - 1 - age] == 100.0 && data[|data| - 1 - (age + 1)] == 0.0;
    assert a == Point(2 * g.dx - 3 * n, 4) && b == Point(a.x - 1, 4 * g.dy + 3);
    SteepLine(a, b);
    var p := Point(a.x, 8);
    hide LinePoints, Spot, YAt, Cliff;
    assert OnSegment(g, data, age, p);
  }

  lemma PlainIsLevel(g: Geometry, data: seq<real>)
    requires g.dy >= 1 && forall i :: 0 <= i < |data| ==> data[i] == 100.0
    ensures forall p :: p in Dots(g, data) ==> p.y == 4
  {
    HigherIsUp(g, 0.0, 100.0);
    hide YAt, LinePoints, XAt;
    forall p | p in Dots(g, data)
      ensures p.y == 4
    {
      if p != Spot(g, data, 0) {
        var age: nat :| age < |data| - 1 && OnSegment(g, data, age, p);
        var a, b := Spot(g, data, age), Spot(g, data, age + 1);
        LineIsDigital(a, b);
        DigitalLineShape(a, b, LinePoints(a, b));
      }
    }
  }

  lemma OneSeries(g: Geometry, data: seq<real>)
    ensures AllDots(g, map["x" := data], ["x"], 0) == Dots(g, data)
  {
    hide Dots;
    assert AllDots(g, map["x" := data], ["x"], 1) == {};
    assert SamplesOf(map["x" := data], "x") == data;
  }

  lemma OneRowMissing(few: set<Point>, many: set<Point>, fewGrid: Grid, grid: Grid, origin: Point, x: int)
    requires x >= 2 && Point(x, 8) in many && forall p :: p in few ==> p.y == 4
    ensures Plotted(few, fewGrid, origin) != Plotted(many, grid, origin)
  {
    hide PlotCell;
    var cell := CellOf(Point(x, 8));
    assert cell.y == 2 && cell.x >= 1 && cell in CellsOf(many);
    assert ScreenPos(origin, cell) in Plotted(many, grid, origin);
    assert forall c :: c in CellsOf(few) ==> c.y == 1;
    assert ScreenPos(origin, cell) !in Plotted(few, fewGrid, origin);
  }

  /** Drawn at the narrowest width that cuts, and then widened, the cliff is gone. */
  lemma WideningShows(narrowest: int, widest: int, dy: int)
    requires 2 <= narrowest && 2 * widest >= 3 * narrowest + 2 && dy >= 2
    ensures var s := State(Geometry(narrowest, dy, 1), map["x" := Cliff(narrowest)]);
            !NothingMissing(s, [Redraw({"x"}), Resize(widest, dy)])
  {
    hide Run, Cliff, Picture, NothingMissing;
    var samples := Cliff(narrowest);
    var s := State(Geometry(narrowest, dy, 1), map["x" := samples]);
    var events := [Redraw({"x"}), Resize(widest, dy)];
    CutAndWidened(s.g, samples, widest);
    CliffIsMissing(Geometry(widest, dy, 1), narrowest);
    SomethingMissing(s, events, ["x"]);
  }

  lemma SomethingMissing(s: State, events: seq<Event>, names: seq<string>)
    requires var pruned, full := Run(s, events, true), Run(s, events, false);
             Picture(pruned.g, pruned.data, names, map[], 0, Point(0, 0))
             != Picture(full.g, full.data, names, map[], 0, Point(0, 0))
    ensures !NothingMissing(s, events)
  {
    hide Run, Picture;
  }

  lemma CliffTop(n: nat)
    requires n >= 1
    ensures var kept := Cliff(n)[n - 1..]; forall i :: 0 <= i < |kept| ==> kept[i] == 100.0
  {
  }

  lemma CliffIsMissing(g: Geometry, n: nat)
    requires n >= 2 && g.scale == 1 && g.dy >= 2 && 2 * g.dx >= 3 * n + 2
    ensures Picture(g, map["x" := Cliff(n)[n - 1..]], ["x"], map[], 0, Point(0, 0))
         != Picture(g, map["x" := Cliff(n)], ["x"], map[], 0, Point(0, 0))
  {
    hide Dots, Cliff, AllDots, Plotted, PaintedFrom;
    var samples, kept := Cliff(n), Cliff(n)[n - 1..];
    CliffTop(n);
    CliffShows(g, n);
    PlainIsLevel(g, kept);
    OneSeries(g, samples);
    OneSeries(g, kept);
    OneRowMissing(Dots(g, kept), Dots(g, samples), PaintedFrom(g, map["x" := kept], ["x"], map[], 0, 0),
                  PaintedFrom(g, map["x" := samples], ["x"], map[], 0, 0), Point(0, 0), 2 * g.dx - 3 * n);
  }

  lemma CutAndWidened(g: Geometry, samples: seq<real>, widest: int)
    requires g.dx >= 1 && g.scale == 1 && |samples| == 4 * g.dx + 1
    ensures var s, events := State(g, map["x" := samples]), [Redraw({"x"}), Resize(widest, g.dy)];
            && Run(s, events, true) == State(Geometry(widest, g.dy, 1), map["x" := samples[g.dx - 1..]])
            && Run(s, events, false) == State(Geometry(widest, g.dy, 1), map["x" := samples])
  {
    var s, events := State(g, map["x" := samples]), [Redraw({"x"}), Resize(widest, g.dy)];
    assert events[..1] == [Redraw({"x"})] && events[..1][..0] == [];
    OneCut(g, samples);
    hide Kept;
    assert Run(s, events[..1], true) == Step(s, Redraw({"x"}), true);
    assert Run(s, events[..1], false) == s;
    assert KeptOf(g, s.data, {"x"}) == map["x" := samples[g.dx - 1..]];
  }

  lemma OneCut(g: Geometry, samples: seq<real>)
    requires g.dx >= 1 && g.scale == 1 && |samples| == 4 * g.dx + 1
    ensures Kept(g, samples) == samples[g.dx - 1..]
  {
  }

  /** Pruning is invisible exactly if twice the widest width is at most one more than three times the
      narrowest that cuts: then no picture shows it after any run of samples, draws, changes of scale and
      changes of size, and only then. At a fixed width that always holds. */
  lemma PruningIsInvisible(narrowest: int, widest: int)
    requires 1 <= narrowest <= widest
    ensures (forall s, events :: AtWidths(s, events, narrowest, widest) ==> NothingMissing(s, events))
       <==> 2 * widest <= 3 * NarrowestCut(narrowest) + 1
  {
    hide NothingMissing;
    if 2 * widest <= 3 * NarrowestCut(narrowest) + 1 {
      forall s, events | AtWidths(s, events, narrowest, widest)
        ensures NothingMissing(s, events)
      {
        PruningLeavesPictures(s, events, narrowest, widest);
      }
    } else {
      var n := NarrowestCut(narrowest);
      WideningShows(n, widest, 4);
      var s := State(Geometry(n, 4, 1), map["x" := Cliff(n)]);
      assert AtWidths(s, [Redraw({"x"}), Resize(widest, 4)], narrowest, widest);
    }
  }
}
