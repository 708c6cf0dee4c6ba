/** Where the samples of a series go on the canvas of a line graph (termui/linegraph.go), and why
    dropping old samples never shows. */
module SeriesDots {
  import opened GoInt
  import opened Drawille
  import opened Pruning
  import opened Sequences

  // ---------------------------------------------------------------- the dots of a series

  /** The size of the inner rectangle in cells, and the dots between two samples. */
  datatype Geometry = Geometry(dx: int, dy: int, scale: int)

  predicate Drawable(g: Geometry) {
    g.dx >= 1 && g.dy >= 0 && g.scale >= 0
  }

  predicate InPercent(data: seq<real>) {
    forall i :: 0 <= i < |data| ==> 0.0 <= data[i] <= 100.0
  }

  /** The newest sample has age zero and sits at the right edge. */
  function XAt(g: Geometry, age: int): int {
    (g.dx + 1) * 2 - 1 - age * g.scale
  }

  function YAt(g: Geometry, value: real): int {
    (g.dy + 1) * 4 - 1 - Trunc((g.dy * 4 - 1) as real * (value / 100.0))
  }

  function Spot(g: Geometry, data: seq<real>, age: nat): Point
    requires age < |data|
  {
    Point(XAt(g, age), YAt(g, data[|data| - 1 - age]))
  }

  /** Is p drawn between the samples of age and age + 1? The line that runs into the left wall
      is clipped there, and not drawn at all when its nearer end is already in the wall. */
  predicate OnSegment(g: Geometry, data: seq<real>, age: nat, p: Point)
    requires age + 1 < |data|
  {
    && p in LinePoints(Spot(g, data, age), Spot(g, data, age + 1))
    && XAt(g, age) >= 0
    && (XAt(g, age + 1) >= 0 || (XAt(g, age) > 0 && p.x > 0))
  }

  /** The dots of the newest n samples. */
  ghost function DotsOf(g: Geometry, data: seq<real>, n: nat): set<Point>
    requires n <= |data|
  {
    (if n > 0 then {Spot(g, data, 0)} else {}) +
    (set age: nat, p | age < n - 1 && p in LinePoints(Spot(g, data, age), Spot(g, data, age + 1))
                       && OnSegment(g, data, age, p) :: p)
  }

  ghost function Dots(g: Geometry, data: seq<real>): set<Point> {
    DotsOf(g, data, |data|)
  }

  lemma ScaledPercent(n: int, value: real)
    requires n >= 0 && 0.0 <= value <= 100.0
    ensures 0 <= Trunc(n as real * (value / 100.0)) <= n
  {
    var share := value / 100.0;
    var x := n as real * share;
    assert 0.0 <= x <= n as real * 1.0;
    assert x.Floor as real <= x;
  }

  lemma SpotRange(g: Geometry, value: real)
    requires g.dy >= 0 && 0.0 <= value <= 100.0
    ensures 3 <= YAt(g, value) <= 4 * g.dy + 4
    ensures g.dy >= 1 ==> 4 <= YAt(g, value) <= 4 * g.dy + 3
  {
    if g.dy >= 1 {
      ScaledPercent(4 * g.dy - 1, value);
    } else {
      assert (g.dy * 4 - 1) as real * (value / 100.0) == -(value / 100.0);
    }
  }

  /** Greater values are never drawn lower; nothing is on the lowest row of dots, everything on the
      highest one that shows. */
  lemma HigherIsUp(g: Geometry, v: real, w: real)
    requires g.dy >= 1 && 0.0 <= v <= w
    ensures YAt(g, w) <= YAt(g, v)
    ensures YAt(g, 0.0) == 4 * g.dy + 3 && YAt(g, 100.0) == 4
  {
    var n := (g.dy * 4 - 1) as real;
    assert n * (v / 100.0) <= n * (w / 100.0);
    assert n * (0.0 / 100.0) == 0.0 && n * (100.0 / 100.0) == n;
    FloorMonotone(n * (v / 100.0), n * (w / 100.0));
  }

  /** A percentage is plotted that share of the way from the lowest dot row to the highest, less than a dot
      below the exact height. */
  lemma HeightInProportion(g: Geometry, value: real)
    requires g.dy >= 1 && 0.0 <= value <= 100.0
    ensures var up := 4 * g.dy + 3 - YAt(g, value);
            up as real <= (4 * g.dy - 1) as real * (value / 100.0) < up as real + 1.0
  {
    ScaledPercent(4 * g.dy - 1, value);
    var share := value / 100.0;
    assert (4 * g.dy - 1) as real * share >= 0.0;
  }

  /** Without a row, everything is plotted in one place but 100, which is one dot lower. */
  lemma FlatHeight(g: Geometry, value: real)
    requires g.dy == 0 && 0.0 <= value <= 100.0
    ensures YAt(g, value) == if value < 100.0 then 3 else 4
  {
    assert (g.dy * 4 - 1) as real * (value / 100.0) == -(value / 100.0);
  }

  lemma FloorMonotone(a: real, b: real)
    requires a <= b
    ensures a.Floor <= b.Floor
  {
    assert a.Floor as real <= b;
  }

  /** The newest sample is plotted in the last column of dots, and each other one `scale` dots left of the one
      after it. */
  lemma AgesGoLeft(g: Geometry, age: nat, older: nat)
    requires g.scale >= 0 && age <= older
    ensures XAt(g, older) <= XAt(g, age) <= 2 * g.dx + 1
    ensures XAt(g, 0) == 2 * g.dx + 1 && XAt(g, age + 1) == XAt(g, age) - g.scale
  {
    assert age * g.scale <= older * g.scale;
    assert 0 <= age * g.scale;
  }

  /** Where dots may lie: never left of the wall nor right of the newest sample, and for a graph at
      least one cell high never above or below the rows that show on the screen. */
  predicate InRange(g: Geometry, p: Point) {
    && 0 <= p.x <= 2 * g.dx + 1
    && 3 <= p.y <= 4 * g.dy + 4
    && (g.dy >= 1 ==> 4 <= p.y <= 4 * g.dy + 3)
  }

  lemma SegmentInRange(g: Geometry, data: seq<real>, age: nat, p: Point)
    requires Drawable(g) && InPercent(data) && age + 1 < |data| && OnSegment(g, data, age, p)
    ensures InRange(g, p)
  {
    var a, b := Spot(g, data, age), Spot(g, data, age + 1);
    LineIsDigital(a, b);
    DigitalLineShape(a, b, LinePoints(a, b));
    SpotRange(g, data[|data| - 1 - age]);
    SpotRange(g, data[|data| - 1 - (age + 1)]);
    AgesGoLeft(g, age, age + 1);
  }

  /** Every dot of a series of percentages is in range. */
  lemma DotsInRange(g: Geometry, data: seq<real>, n: nat)
    requires Drawable(g) && InPercent(data) && n <= |data|
    ensures forall p :: p in DotsOf(g, data, n) ==> InRange(g, p)
  {
    forall p | p in DotsOf(g, data, n)
      ensures InRange(g, p)
    {
      if p == Spot(g, data, 0) {
        SpotRange(g, data[|data| - 1]);
      } else {
        var age: nat :| age < n - 1 && OnSegment(g, data, age, p);
        SegmentInRange(g, data, age, p);
      }
    }
  }

  // ---------------------------------------------------------------- pruning is invisible

  /** The samples that can matter are those up to two widths and one sample old. */
  lemma OnlyRecentSamplesShow(g: Geometry, data: seq<real>, age: nat, p: Point)
    requires g.dx >= 1 && g.scale >= 1 && age + 1 < |data| && OnSegment(g, data, age, p)
    ensures age <= 2 * g.dx
  {
    hide LinePoints, Spot;
    AgesAdd(age, g.scale);
  }

  lemma SameNewest(g: Geometry, recent: seq<real>, data: seq<real>)
    requires IsSuffix(recent, data)
    ensures forall age: nat :: age < |recent| ==> Spot(g, recent, age) == Spot(g, data, age)
  {
    forall age: nat | age < |recent|
      ensures Spot(g, recent, age) == Spot(g, data, age)
    {
      assert data[|data| - |recent|..][|recent| - 1 - age] == data[|data| - 1 - age];
    }
  }

  lemma SameSegment(g: Geometry, recent: seq<real>, data: seq<real>, age: nat, p: Point)
    requires IsSuffix(recent, data) && age + 1 < |recent|
    ensures OnSegment(g, recent, age, p) <==> OnSegment(g, data, age, p)
    ensures OnSegment(g, data, age, p) ==>
              p in LinePoints(Spot(g, recent, age), Spot(g, recent, age + 1)) &&
              p in LinePoints(Spot(g, data, age), Spot(g, data, age + 1))
  {
    SameNewest(g, recent, data);
    hide XAt, LinePoints, Spot;
  }

  /** Two series with the same newest samples look the same, if those reach past the left wall. */
  lemma SameRecentSameDots(g: Geometry, recent: seq<real>, data: seq<real>)
    requires g.dx >= 1 && g.scale >= 1 && IsSuffix(recent, data)
    requires recent == data || |recent| >= 2 * g.dx + 2
    ensures Dots(g, recent) == Dots(g, data)
  {
    if recent != data {
      SameNewest(g, recent, data);
      hide XAt, LinePoints, Spot, OnSegment;
      forall p | p in Dots(g, data)
        ensures p in Dots(g, recent)
      {
        if p != Spot(g, data, 0) {
          var age: nat :| age < |data| - 1 && OnSegment(g, data, age, p);
          OnlyRecentSamplesShow(g, data, age, p);
          SameSegment(g, recent, data, age, p);
        }
      }
      forall p | p in Dots(g, recent)
        ensures p in Dots(g, data)
      {
        if p != Spot(g, recent, 0) {
          var age: nat :| age < |recent| - 1 && OnSegment(g, recent, age, p);
          SameSegment(g, recent, data, age, p);
        }
      }
    }
  }

  /** The dots that are printed: those in the leftmost column of cells are not. */
  function InPrint(points: set<Point>): set<Point> {
    set p | p in points && p.x >= 2
  }

  predicate OnLine(g: Geometry, data: seq<real>, age: nat, p: Point)
    requires age + 1 < |data|
  {
    p in LinePoints(Spot(g, data, age), Spot(g, data, age + 1))
  }

  /** The whole line through the samples, from the newest to the oldest, regardless of any wall. */
  ghost function Polyline(g: Geometry, data: seq<real>): set<Point> {
    (if data != [] then {Spot(g, data, 0)} else {}) +
    (set age: nat, p | age < |data| - 1 && p in LinePoints(Spot(g, data, age), Spot(g, data, age + 1))
                       && OnLine(g, data, age, p) :: p)
  }

  /** What is printed of a series is what there is to print of the line through its samples: the wall, the
      clipping and the end of the loop take nothing away. */
  lemma PrintIsPolyline(g: Geometry, data: seq<real>)
    requires g.scale >= 0
    ensures InPrint(Dots(g, data)) == InPrint(Polyline(g, data))
  {
    hide XAt, LinePoints, Spot, OnSegment;
    forall p | p in Dots(g, data)
      ensures p in Polyline(g, data)
    {
      if p != Spot(g, data, 0) {
        var age: nat :| age < |data| - 1 && OnSegment(g, data, age, p);
        OnItsLine(g, data, age, p);
      }
    }
    forall p | p in Polyline(g, data) && p.x >= 2
      ensures p in Dots(g, data)
    {
      if p != Spot(g, data, 0) {
        var age: nat :| age < |data| - 1 && OnLine(g, data, age, p);
        NothingPrintedIsCut(g, data, age, p);
      }
    }
  }

  lemma OnItsLine(g: Geometry, data: seq<real>, age: nat, p: Point)
    requires age + 1 < |data| && OnSegment(g, data, age, p)
    ensures p in LinePoints(Spot(g, data, age), Spot(g, data, age + 1)) && OnLine(g, data, age, p)
  {
    hide LinePoints, Spot, XAt;
  }

  lemma NothingPrintedIsCut(g: Geometry, data: seq<real>, age: nat, p: Point)
    requires g.scale >= 0 && age + 1 < |data| && p.x >= 2 && OnLine(g, data, age, p)
    ensures OnSegment(g, data, age, p) && p in LinePoints(Spot(g, data, age), Spot(g, data, age + 1))
  {
    var a, b := Spot(g, data, age), Spot(g, data, age + 1);
    LineIsDigital(a, b);
    DigitalLineShape(a, b, LinePoints(a, b));
    AgesGoLeft(g, age, age + 1);
    hide LinePoints, IsDigitalLine;
  }

  /** As many as reach that column are enough to look the same in print. */
  lemma SameRecentSamePrint(g: Geometry, recent: seq<real>, data: seq<real>)
    requires g.dx >= 1 && g.scale >= 1 && IsSuffix(recent, data)
    requires recent == data || |recent| >= 2 * g.dx + 1
    ensures InPrint(Dots(g, recent)) == InPrint(Dots(g, data))
  {
    if recent != data {
      SameNewest(g, recent, data);
      hide XAt, LinePoints, Spot, OnSegment;
      forall p | p in Dots(g, data) && p.x >= 2
        ensures p in Dots(g, recent)
      {
        if p != Spot(g, data, 0) {
          var age: nat :| age < |data| - 1 && OnSegment(g, data, age, p);
          PrintedIsRecent(g, data, age, p);
          SameSegment(g, recent, data, age, p);
        }
      }
      forall p | p in Dots(g, recent)
        ensures p in Dots(g, data)
      {
        if p != Spot(g, recent, 0) {
          var age: nat :| age < |recent| - 1 && OnSegment(g, recent, age, p);
          SameSegment(g, recent, data, age, p);
        }
      }
    }
  }

  lemma SegmentLeftOf(g: Geometry, data: seq<real>, age: nat, p: Point)
    requires g.scale >= 1 && age + 1 < |data| && OnSegment(g, data, age, p)
    ensures p.x <= XAt(g, age)
  {
    var a, b := Spot(g, data, age), Spot(g, data, age + 1);
    LineIsDigital(a, b);
    DigitalLineShape(a, b, LinePoints(a, b));
    AgesGoLeft(g, age, age + 1);
  }

  lemma PrintedIsRecent(g: Geometry, data: seq<real>, age: nat, p: Point)
    requires g.dx >= 1 && g.scale >= 1 && age + 1 < |data| && OnSegment(g, data, age, p) && p.x >= 2
    ensures age < 2 * g.dx
  {
    hide OnSegment, LinePoints, Spot;
    SegmentLeftOf(g, data, age, p);
    AgesAdd(age, g.scale);
  }

  lemma AgesAdd(age: nat, scale: int)
    requires scale >= 1
    ensures age * scale >= age
  {
  }

  /** Conversely, a cut that reaches into the view shows: the sample that is gone was the leftmost dot. */
  lemma DroppingVisibleSamplesShows(g: Geometry, recent: seq<real>, data: seq<real>)
    requires g.scale >= 1 && IsSuffix(recent, data) && recent != [] && recent != data
    requires XAt(g, |recent|) >= 0
    ensures Dots(g, recent) != Dots(g, data)
  {
    var n := |recent|;
    var lost := Spot(g, data, n);
    var age: nat := n - 1;
    AgesGoLeft(g, n - 1, n);
    EndOnSegment(g, data, age);
    hide LinePoints, OnSegment, XAt;
    assert age < |data| - 1 && OnSegment(g, data, age, lost);
    assert lost in Dots(g, data) && lost.x == XAt(g, n) by {
      hide IsSuffix;
    }
    if lost in Dots(g, recent) {
      hide Dots, Spot;
      AllRightOf(g, recent, lost);
    }
  }

  lemma AllRightOf(g: Geometry, data: seq<real>, p: Point)
    requires g.scale >= 1 && data != [] && p in Dots(g, data)
    ensures p.x > XAt(g, |data|)
  {
    var n := |data|;
    hide LinePoints, OnSegment, XAt;
    AgesGoLeft(g, n - 1, n);
    if p == Spot(g, data, 0) {
      AgesGoLeft(g, 0, n - 1);
    } else {
      var older: nat :| older < n - 1 && OnSegment(g, data, older, p);
      SegmentRightOf(g, data, older, p);
      AgesGoLeft(g, older + 1, n - 1);
    }
  }

  lemma EndOnSegment(g: Geometry, data: seq<real>, age: nat)
    requires age + 1 < |data| && g.scale >= 0 && XAt(g, age + 1) >= 0
    ensures var end := Spot(g, data, age + 1);
            OnSegment(g, data, age, end) && end in LinePoints(Spot(g, data, age), end)
  {
    var a, b := Spot(g, data, age), Spot(g, data, age + 1);
    LineIsDigital(a, b);
    DigitalLineShape(a, b, LinePoints(a, b));
    AgesGoLeft(g, age, age + 1);
    hide LinePoints, XAt;
  }

  lemma SegmentRightOf(g: Geometry, data: seq<real>, age: nat, p: Point)
    requires g.scale >= 1 && age + 1 < |data| && OnSegment(g, data, age, p)
    ensures p.x >= XAt(g, age + 1)
  {
    var a, b := Spot(g, data, age), Spot(g, data, age + 1);
    LineIsDigital(a, b);
    DigitalLineShape(a, b, LinePoints(a, b));
    AgesGoLeft(g, age, age + 1);
  }
}
