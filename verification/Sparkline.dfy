/** The sparklines of termui/sparkline.go: one bar for each of the newest samples, as high as the
    sample is in proportion to the greatest one in view. */
module Sparkline {
  import opened GoInt
  import opened Drawille
  import opened Painting
  import opened Pruning
  import opened Sequences

  const BARS: seq<char> :=
    [' ', '\U{2581}', '\U{2582}', '\U{2583}', '\U{2584}', '\U{2585}', '\U{2586}', '\U{2587}', '\U{2588}']

  // ---------------------------------------------------------------- what is in view

  /** The samples a view of the given width shows. */
  function Window(data: seq<int>, dx: int): seq<int>
    requires dx >= 0
  {
    if |data| <= dx then data else data[|data| - dx..]
  }

  /** The greatest of one and the samples. */
  predicate IsPeak(samples: seq<int>, max: int) {
    && max >= 1 && (max == 1 || max in samples)
    && forall i :: 0 <= i < |samples| ==> samples[i] <= max
  }

  function Peak(samples: seq<int>): (max: int)
    ensures max >= 1
  {
    if samples == [] then 1 else Max(samples[0], Peak(samples[1..]))
  }

  lemma {:induction false} PeakIsPeak(samples: seq<int>, max: int)
    ensures IsPeak(samples, max) <==> max == Peak(samples)
  {
    if samples != [] {
      var rest := samples[1..];
      PeakIsPeak(rest, Peak(rest));
      assert IsPeak(rest, Peak(rest));
      assert forall i :: 0 < i < |samples| ==> samples[i] == rest[i - 1];
      assert IsPeak(samples, Peak(samples));
    }
  }

  // ---------------------------------------------------------------- bars

  function BarIndex(sample: int, max: int): int
    requires max >= 1
  {
    Trunc(sample as real / max as real * (|BARS| - 2) as real) + 1
  }

  lemma Proportion(sample: int, max: int)
    requires max >= 1
    ensures sample as real / max as real * 7.0 == (7 * sample) as real / max as real
  {
  }

  /** The height in whole eighths: rounded toward zero. */
  lemma BarIndexIsQuotient(sample: int, max: int)
    requires max >= 1
    ensures BarIndex(sample, max) == Quo(7 * sample, max) + 1
  {
    Proportion(sample, max);
    FloorOfQuotient(Abs(7 * sample), max);
    if sample < 0 {
      assert -((7 * sample) as real / max as real) == Abs(7 * sample) as real / max as real;
    }
  }

  lemma FloorOfQuotient(n: nat, d: int)
    requires d >= 1
    ensures (n as real / d as real).Floor == n / d
  {
    var q := n / d;
    assert d * q <= n < d * q + d;
    assert q as real <= n as real / d as real by {
      DivideBoth(q * d, n, d);
    }
    assert n as real / d as real < (q + 1) as real by {
      DivideBothStrictly(n, (q + 1) * d, d);
    }
  }

  lemma DivideBoth(a: int, b: int, d: int)
    requires d >= 1 && a <= b
    ensures a as real / d as real <= b as real / d as real
  {
  }

  lemma DivideBothStrictly(a: int, b: int, d: int)
    requires d >= 1 && a < b
    ensures a as real / d as real < b as real / d as real
  {
  }

  predicate HasBar(samples: seq<int>, i: nat)
    requires i < |samples|
  {
    7 * samples[i] > -Peak(samples)
  }

  /** A sample in view has a bar exactly when it is not so negative that rounding toward zero
      leaves it below the lowest one; so samples that are not negative always have one. */
  lemma BarExists(samples: seq<int>, i: nat)
    requires i < |samples|
    ensures 1 <= BarIndex(samples[i], Peak(samples)) < |BARS| <==> HasBar(samples, i)
    ensures samples[i] >= 0 ==> HasBar(samples, i)
  {
    var s, max := samples[i], Peak(samples);
    PeakIsPeak(samples, max);
    BarIndexIsQuotient(s, max);
    if s >= 0 {
      QuotientBelow(7 * s, 7, max);
    } else {
      SmallQuotient(-(7 * s), max);
    }
  }

  lemma QuotientBelow(n: nat, k: nat, d: int)
    requires d >= 1 && n <= k * d
    ensures 0 <= n / d <= k
  {
  }

  lemma SmallQuotient(n: nat, d: int)
    requires d >= 1
    ensures n / d == 0 <==> n < d
  {
  }

  /** The greatest sample in view gets the full bar, and nothing the lowest. */
  lemma FullAndEmptyBars(samples: seq<int>)
    ensures Peak(samples) in samples ==> BarIndex(Peak(samples), Peak(samples)) == |BARS| - 1
    ensures BarIndex(0, Peak(samples)) == 1
  {
    var max := Peak(samples);
    BarIndexIsQuotient(max, max);
    BarIndexIsQuotient(0, max);
    assert 7 * max == max * 7;
    DivBounds(7 * max, max);
    QuotientUnique(7 * max, max, 7 * max / max, 7);
  }

  /** Greater samples never get lower bars. */
  lemma BarsMonotone(s: int, t: int, max: int)
    requires max >= 1 && s <= t
    ensures BarIndex(s, max) <= BarIndex(t, max)
  {
    BarIndexIsQuotient(s, max);
    BarIndexIsQuotient(t, max);
    QuoMonotone(7 * s, 7 * t, max);
  }

  lemma DivMonotone(m: nat, n: nat, d: int)
    requires d >= 1 && m <= n
    ensures m / d <= n / d
  {
    DivBounds(m, d);
    DivBounds(n, d);
    NoWiderGap(d, n / d, m / d);
  }

  lemma QuoMonotone(m: int, n: int, d: int)
    requires d >= 1 && m <= n
    ensures Quo(m, d) <= Quo(n, d)
  {
    if m >= 0 {
      DivMonotone(m, n, d);
    } else if n < 0 {
      DivMonotone(-n, -m, d);
    } else {
      DivBounds(-m, d);
      DivBounds(n, d);
      NoWiderGap(d, n / d, 0);
      NoWiderGap(d, -m / d, 0);
    }
  }

  // ---------------------------------------------------------------- the picture

  /** The bar k cells left of the right edge. */
  function BarAt(data: seq<int>, dx: int, k: nat): char
    requires k < dx
  {
    var window := Window(data, dx);
    if k < |window| then
      var index := BarIndex(window[|window| - 1 - k], Peak(window));
      if 1 <= index < |BARS| then BARS[index] else BARS[1]
    else BARS[1]
  }

  function BarCell(data: seq<int>, dx: int, color: Color, x: int): Cell
    requires 1 <= x <= dx
  {
    Cell(Letter(BarAt(data, dx, dx - x)), Style(color, COLOR_CLEAR, MODIFIER_CLEAR))
  }

  function BarPos(left: Point, x: int): Point {
    Point(left.x + x - 1, left.y)
  }

  /** The cells from column `from` to the right edge. */
  function BarCells(data: seq<int>, dx: int, color: Color, left: Point, from: int): Cells
    requires from >= 1
  {
    map x | from <= x <= dx :: BarPos(left, x) := BarCell(data, dx, color, x)
  }

  /** The bars keep to the row, and are its cells. */
  lemma BarsFillTheRow(data: seq<int>, dx: int, color: Color, left: Point, q: Point)
    requires dx >= 1
    ensures q in BarCells(data, dx, color, left, 1) <==> q.y == left.y && left.x <= q.x < left.x + dx
  {
    hide BarCell;
    if q.y == left.y && left.x <= q.x < left.x + dx {
      assert BarPos(left, q.x - left.x + 1) == q;
    }
  }

  /** The newest sample is at the right edge, ... */
  lemma NewestAtTheRight(data: seq<int>, sample: int, dx: int, color: Color, left: Point)
    requires dx >= 1 && sample >= 0
    ensures var edge := Point(left.x + dx - 1, left.y);
            var cells, peak := BarCells(data + [sample], dx, color, left, 1), Peak(Window(data + [sample], dx));
            && 1 <= 7 * sample / peak + 1 < |BARS|
            && edge in cells && cells[edge].glyph == Letter(BARS[7 * sample / peak + 1])
  {
    var window := Window(data + [sample], dx);
    assert window[|window| - 1] == sample;
    BarExists(window, |window| - 1);
    BarIndexIsQuotient(sample, Peak(window));
    hide BarIndex, Peak, HasBar;
    assert BarPos(left, dx) == Point(left.x + dx - 1, left.y);
  }

  /** ... and moves one cell to the left with every sample that comes, at its height as long as the peak stays. */
  lemma BarsMoveLeft(data: seq<int>, sample: int, dx: int, k: nat)
    requires k + 1 < dx && Peak(Window(data + [sample], dx)) == Peak(Window(data, dx))
    ensures BarAt(data + [sample], dx, k + 1) == BarAt(data, dx, k)
  {
    var now, before := Window(data + [sample], dx), Window(data, dx);
    if k < |before| {
      assert now[|now| - 1 - (k + 1)] == before[|before| - 1 - k];
    }
    hide BarIndex, Peak;
  }

  class Sparkline {
    var data: seq<int>
    var lineColor: Color

    constructor ()
      ensures data == []
    {
      data := [];
      lineColor := 0;
    }
  }

  lemma NoPeak(data: seq<int>)
    ensures IsPeak(data[|data|..], 1)
  {
  }

  lemma OneMoreSample(data: seq<int>, i: nat, max: int)
    requires i < |data| && IsPeak(data[i + 1..], max)
    ensures IsPeak(data[i..], Max(data[i], max))
  {
    assert data[i..] == [data[i]] + data[i + 1..];
    assert forall k :: 0 < k < |data[i..]| ==> data[i..][k] == data[i + 1..][k - 1];
  }

  /** Finds the greatest sample in view. */
  method FindPeak(data: seq<int>, dx: int) returns (max: int)
    requires dx >= 0
    ensures max == Peak(Window(data, dx))
  {
    hide Peak, IsPeak;
    NoPeak(data);
    max := 1;
    var i := |data| - 1;
    while i >= 0 && dx - ((|data| - 1) - i) >= 1
      invariant |data| - |Window(data, dx)| - 1 <= i <= |data| - 1
      invariant IsPeak(data[i + 1..], max)
    {
      OneMoreSample(data, i, max);
      if data[i] > max {
        max := data[i];
      }
      i := i - 1;
    }
    assert data[i + 1..] == Window(data, dx);
    PeakIsPeak(Window(data, dx), max);
  }

  lemma BarOf(data: seq<int>, dx: int, k: nat)
    requires k < dx
    ensures var window := Window(data, dx);
            BarAt(data, dx, k) ==
              if k < |window| && HasBar(window, |window| - 1 - k)
              then BARS[BarIndexOf(window, |window| - 1 - k)]
              else BARS[1]
  {
    var window := Window(data, dx);
    if k < |window| {
      BarExists(window, |window| - 1 - k);
    }
    hide BarIndex, Peak, HasBar;
  }

  function BarIndexOf(window: seq<int>, i: nat): (index: nat)
    requires i < |window| && HasBar(window, i)
    ensures 1 <= index < |BARS|
  {
    BarExists(window, i);
    BarIndex(window[i], Peak(window))
  }

  /** Draws one sparkline in a row of the given width; logs the samples that have no bar. */
  method DrawSparkline(line: Sparkline, buf: Buffer, left: Point, dx: int) returns (log: seq<int>)
    requires dx >= 1
    modifies line`data, buf
    ensures buf.cells == old(buf.cells) + BarCells(old(line.data), dx, line.lineColor, left, 1)
    ensures line.data == Prune(old(line.data), dx)
    ensures var window := Window(old(line.data), dx);
            log == [] <==> forall i :: 0 <= i < |window| ==> HasBar(window, i)
  {
    hide BarIndex, Peak, BarCells, BarAt, HasBar;
    ghost var window, under := Window(line.data, dx), buf.cells;
    var data, color := line.data, line.lineColor;
    var max := FindPeak(data, dx);
    log := [];
    NoBars(data, dx, color, left);
    var x := dx;
    while x >= 1
      invariant 0 <= x <= dx && line.data == data
      invariant buf.cells == under + BarCells(data, dx, color, left, x + 1)
      invariant log == [] <==> forall i :: 0 <= i < |window| && |window| - (dx - x) <= i ==> HasBar(window, i)
    {
      var cell := BARS[1];
      if dx - x < |data| {
        var offset := dx - x;
        var curItem := data[(|data| - 1) - offset];
        assert curItem == window[|window| - 1 - offset];
        BarExists(window, |window| - 1 - offset);
        var index := BarIndex(curItem, max);
        if index < 1 || index >= |BARS| {
          log := log + [curItem];
        } else {
          cell := BARS[index];
        }
      }
      BarOf(data, dx, dx - x);
      buf.SetCell(Cell(Letter(cell), Style(color, COLOR_CLEAR, MODIFIER_CLEAR)), Point(left.x + x - 1, left.y));
      OneMoreBar(data, dx, color, left, x);
      x := x - 1;
    }
    if |line.data| > 4 * dx {
      line.data := line.data[dx - 1..];
    }
  }

  /** The row of the i-th of n sparklines, from the top of a group dy cells high. */
  function SparkRow(dy: int, n: nat, i: nat): int
    requires n > 0
  {
    Quo(dy, n) * (i + 1) - 1
  }

  lemma RowBounds(dy: nat, n: nat, i: nat)
    requires i < n
    ensures dy >= n ==> 0 <= SparkRow(dy, n, i) < dy
    ensures dy < n ==> SparkRow(dy, n, i) == -1
  {
    var q := dy / n;
    DivBounds(dy, n);
    NoWiderGap(n, q, 1);
    NoWiderGap(n, 0, q);
    RowInBlocks(q, n, i);
    assert SparkRow(dy, n, i) == q * (i + 1) - 1;
    hide SparkRow;
  }

  /** Where there is room, a sparkline is on the last row of its block; the blocks are equally high. */
  lemma RowAtFoot(dy: nat, n: nat, i: nat)
    requires i < n <= dy
    ensures SparkRow(dy, n, i) + 1 == (dy / n) * (i + 1)
  {
  }

  lemma RowInBlocks(q: nat, n: nat, i: nat)
    requires i < n
    ensures q >= 1 ==> 1 <= q * (i + 1) <= n * q
    ensures q == 0 ==> q * (i + 1) == 0
  {
    assert q * (i + 1) <= q * n;
  }

  /** The sparklines of a group have rows of their own, inside it, exactly when it is high enough
      to give each of them one. */
  lemma RowsApartIffHighEnough(dy: nat, n: nat, i: nat, j: nat)
    requires i < j < n
    ensures dy >= n <==> SparkRow(dy, n, i) != SparkRow(dy, n, j)
    ensures dy >= n <==> 0 <= SparkRow(dy, n, i) < dy
  {
    RowBounds(dy, n, i);
    RowBounds(dy, n, j);
    if dy >= n {
      NoWiderGap(n, dy / n, 1);
      DivBounds(dy, n);
      NoWiderGap(dy / n, i + 1, j + 1);
    }
  }

  lemma RowCells(data: seq<int>, dx: int, color: Color, left: Point, other: Point, x: int)
    requires 1 <= x <= dx
    ensures BarPos(other, x) in BarCells(data, dx, color, left, 1) ==> other.y == left.y
    ensures BarPos(left, x) in BarCells(data, dx, color, left, 1)
    ensures BarCells(data, dx, color, left, 1)[BarPos(left, x)] == BarCell(data, dx, color, x)
  {
    hide BarCell;
  }

  class SparklineGroup {
    var lines: seq<Sparkline>
    var corner: Point
    var dx: int
    var dy: nat

    constructor (lines: seq<Sparkline>, corner: Point, dx: int, dy: nat)
      ensures this.lines == lines && this.corner == corner && this.dx == dx && this.dy == dy
    {
      this.lines, this.corner, this.dx, this.dy := lines, corner, dx, dy;
    }

    function Pictures(): (ps: seq<Picture>)
      reads this, lines
      ensures |ps| == |lines|
    {
      seq(|lines|, i requires 0 <= i < |lines| reads this, lines => Picture(lines[i].data, lines[i].lineColor))
    }

    /** Draws all sparklines, from the first to the last. */
    method Draw(buf: Buffer)
      requires dx >= 1
      requires forall i, j :: 0 <= i < j < |lines| ==> lines[i] != lines[j]
      modifies lines, buf
      ensures forall i :: 0 <= i < |lines| ==> lines[i].data == Prune(old(lines[i].data), dx)
      ensures buf.cells == GroupCells(old(buf.cells), old(Pictures()), dx, dy, corner, |lines|)
    {
      hide Prune, SparkRow, BarCells;
      ghost var pictures := Pictures();
      for i := 0 to |lines|
        invariant forall k :: 0 <= k < i ==> lines[k].data == Prune(old(lines[k].data), dx)
        invariant forall k :: i <= k < |lines| ==> lines[k].data == old(lines[k].data)
        invariant forall k :: 0 <= k < |lines| ==> lines[k].lineColor == old(lines[k].lineColor)
        invariant buf.cells == GroupCells(old(buf.cells), pictures, dx, dy, corner, i)
      {
        var log := DrawSparkline(lines[i], buf, RowStart(corner, dy, |lines|, i), dx);
      }
    }
  }

  /** What there is to draw of a sparkline. */
  datatype Picture = Picture(data: seq<int>, color: Color)

  /** The cell in front of the i-th of n sparklines. */
  function RowStart(corner: Point, dy: int, n: nat, i: nat): Point
    requires n > 0
  {
    Point(corner.x, corner.y + SparkRow(dy, n, i))
  }

  /** The screen once the first i sparklines are drawn. */
  function GroupCells(under: Cells, ps: seq<Picture>, dx: int, dy: int, corner: Point, i: nat): Cells
    requires i <= |ps|
  {
    if i == 0 then under
    else GroupCells(under, ps, dx, dy, corner, i - 1) +
         BarCells(ps[i - 1].data, dx, ps[i - 1].color, RowStart(corner, dy, |ps|, i - 1), 1)
  }

  /** Where each sparkline has a row of its own, all of its bars show. */
  lemma {:induction false} BarsShow(under: Cells, ps: seq<Picture>, dx: int, dy: nat, corner: Point, i: nat, k: nat, x: int)
    requires k < i <= |ps| <= dy && 1 <= x <= dx
    ensures var p := BarPos(RowStart(corner, dy, |ps|, k), x);
            var cells := GroupCells(under, ps, dx, dy, corner, i);
            p in cells && cells[p] == BarCell(ps[k].data, dx, ps[k].color, x)
  {
    hide BarCell, BarCells, SparkRow;
    var left, last := RowStart(corner, dy, |ps|, k), RowStart(corner, dy, |ps|, i - 1);
    RowCells(ps[i - 1].data, dx, ps[i - 1].color, last, left, x);
    if k < i - 1 {
      BarsShow(under, ps, dx, dy, corner, i - 1, k, x);
      RowsApartIffHighEnough(dy, |ps|, k, i - 1);
    }
  }

  /** In a group too low for that, all sparklines share the row above it and only the last shows. */
  lemma LastShowsAboveLowGroup(under: Cells, ps: seq<Picture>, dx: int, dy: nat, corner: Point, k: nat, x: int)
    requires k < |ps| && dy < |ps| && 1 <= x <= dx
    ensures var p := BarPos(RowStart(corner, dy, |ps|, k), x);
            var cells := GroupCells(under, ps, dx, dy, corner, |ps|);
            var last := ps[|ps| - 1];
            p == Point(corner.x + x - 1, corner.y - 1) && p in cells && cells[p] == BarCell(last.data, dx, last.color, x)
  {
    hide BarCell, BarCells, SparkRow;
    var n := |ps|;
    RowBounds(dy, n, k);
    RowBounds(dy, n, n - 1);
    var start := RowStart(corner, dy, n, n - 1);
    RowCells(ps[n - 1].data, dx, ps[n - 1].color, start, start, x);
  }

  lemma OneMoreBar(data: seq<int>, dx: int, color: Color, left: Point, x: int)
    requires 1 <= x <= dx
    ensures BarCells(data, dx, color, left, x) ==
              BarCells(data, dx, color, left, x + 1)[BarPos(left, x) := BarCell(data, dx, color, x)]
  {
    hide BarCell;
    assert BarPos(left, x) in BarCells(data, dx, color, left, x);
  }

  lemma NoBars(data: seq<int>, dx: int, color: Color, left: Point)
    requires dx >= 0
    ensures BarCells(data, dx, color, left, dx + 1) == map[]
  {
    hide BarCell;
  }

  // ---------------------------------------------------------------- pruning is invisible

  datatype Event = Append(sample: int) | Draw(dx: int)

  function Step(data: seq<int>, e: Event, pruning: bool): seq<int> {
    match e
    case Append(sample) => data + [sample]
    case Draw(dx) => if pruning && dx >= 1 then Prune(data, dx) else data
  }

  function Run(data: seq<int>, events: seq<Event>, pruning: bool): seq<int> {
    if events == [] then data
    else Step(Run(data, events[..|events| - 1], pruning), events[|events| - 1], pruning)
  }

  /** A run that never draws at less than the given width. */
  predicate AtWidths(events: seq<Event>, narrowest: int) {
    forall i :: 0 <= i < |events| && events[i].Draw? ==> events[i].dx >= narrowest
  }

  lemma {:induction false} RunKeeps(data: seq<int>, events: seq<Event>, narrowest: int)
    requires narrowest >= 1 && AtWidths(events, narrowest)
    ensures Keeps(Run(data, events, true), Run(data, events, false), NarrowestCut(narrowest))
  {
    if events == [] {
      assert data[|data| - |data|..] == data;
    } else {
      var front, last := events[..|events| - 1], events[|events| - 1];
      RunKeeps(data, front, narrowest);
      var pruned, full := Run(data, front, true), Run(data, front, false);
      match last
      case Append(sample) => AppendKeeps(pruned, full, NarrowestCut(narrowest), sample);
      case Draw(dx) => PruneKeeps(pruned, full, narrowest, dx);
    }
  }

  /** Does a view of the given width look after the run as it would had no sample ever been dropped? */
  predicate NothingMissing(data: seq<int>, events: seq<Event>, dx: int) {
    forall k :: 0 <= k < dx ==> BarAt(Run(data, events, true), dx, k) == BarAt(Run(data, events, false), dx, k)
  }

  lemma NarrowViewsMissNothing(data: seq<int>, events: seq<Event>, narrowest: int, dx: int)
    requires 1 <= narrowest && AtWidths(events, narrowest) && dx <= 3 * NarrowestCut(narrowest) + 2
    ensures NothingMissing(data, events, dx)
  {
    hide BarAt, Run;
    RunKeeps(data, events, narrowest);
    forall k | 0 <= k < dx
      ensures BarAt(Run(data, events, true), dx, k) == BarAt(Run(data, events, false), dx, k)
    {
      SameBars(Run(data, events, true), Run(data, events, false), dx, k);
    }
  }

  /** One draw of a series one sample too long leaves no bar where a wider view has room for one. */
  lemma WiderViewShows(narrowest: int, dx: int)
    requires 2 <= narrowest && dx > 3 * narrowest + 2
    ensures !NothingMissing(seq(4 * narrowest + 1, _ => 7), [Draw(narrowest)], dx)
  {
    var data, events := seq(4 * narrowest + 1, _ => 7), [Draw(narrowest)];
    assert events[..0] == [];
    assert Run(data, events, true) == data[narrowest - 1..] && Run(data, events, false) == data;
    var k := 3 * narrowest + 2;
    assert BarAt(data[narrowest - 1..], dx, k) == BARS[1];
    var window := Window(data, dx);
    FullAndEmptyBars(window);
    PeakIsPeak(window, 7);
    assert window[|window| - 1 - k] == 7 by {
      assert window[0] == 7;
    }
    assert BarAt(data, dx, k) == BARS[|BARS| - 1] by {
      hide BarIndex, Peak;
    }
  }

  /** Pruning is invisible exactly in views up to three times and two cells as wide as the narrowest
      draw that cuts: over any run of samples and draws, and in no wider view. */
  lemma PruningIsInvisible(narrowest: int, dx: int)
    requires 1 <= narrowest
    ensures (forall data, events :: AtWidths(events, narrowest) ==> NothingMissing(data, events, dx))
       <==> dx <= 3 * NarrowestCut(narrowest) + 2
  {
    hide NothingMissing;
    if dx <= 3 * NarrowestCut(narrowest) + 2 {
      forall data, events | AtWidths(events, narrowest)
        ensures NothingMissing(data, events, dx)
      {
        NarrowViewsMissNothing(data, events, narrowest, dx);
      }
    } else {
      var n := NarrowestCut(narrowest);
      WiderViewShows(n, dx);
      assert AtWidths([Draw(n)], narrowest);
    }
  }

  lemma SameBars(recent: seq<int>, data: seq<int>, dx: int, k: nat)
    requires IsSuffix(recent, data) && k < dx && (recent == data || |recent| >= dx)
    ensures BarAt(recent, dx, k) == BarAt(data, dx, k)
  {
    SameWindow(recent, data, dx);
    hide BarIndex, Peak, Window;
  }

  lemma SameWindow(recent: seq<int>, data: seq<int>, dx: int)
    requires IsSuffix(recent, data) && dx >= 0 && (recent == data || |recent| >= dx)
    ensures Window(recent, dx) == Window(data, dx)
  {
  }
}
