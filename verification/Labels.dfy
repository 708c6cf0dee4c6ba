/** The names and values that `LineGraph.Draw` prints over the graph, in as many columns as it
    takes (termui/linegraph.go). */
module Labels {
  import opened GoInt
  import opened Drawille
  import opened Painting

  /** The loop's variables: where the current column starts, what brings the next row back to the
      top, and the widest label of the column so far. */
  datatype Column = Column(xoff: int, yoff: int, maxWid: int)

  /** Opens a new column when the i-th label would not fit under the others. */
  function Wrapped(column: Column, i: int, dy: int): Column {
    if column.yoff + i + 2 > dy then Column(column.xoff + column.maxWid + 2, -i, 0) else column
  }

  /** The column of the i-th label, once it has widened the column. */
  function ColumnOf(widths: seq<nat>, dy: int, i: nat): Column
    requires i < |widths|
  {
    var before := if i == 0 then Column(0, 0, 0) else ColumnOf(widths, dy, i - 1);
    var column := Wrapped(before, i, dy);
    column.(maxWid := Max(widths[i], column.maxWid))
  }

  /** The first cell of the i-th label, from the corner of the inner rectangle. */
  function LabelStart(widths: seq<nat>, dy: int, i: nat): Point
    requires i < |widths|
  {
    var column := ColumnOf(widths, dy, i);
    Point(column.xoff + 2, column.yoff + i + 1)
  }

  /** A later label is further down in the same column, or in a column to the right that keeps at
      least two cells clear. */
  lemma {:induction false} LaterLabel(widths: seq<nat>, dy: int, i: nat, j: nat)
    requires i < j < |widths|
    ensures var a, b := ColumnOf(widths, dy, i), ColumnOf(widths, dy, j);
            || (a.xoff == b.xoff && a.yoff == b.yoff && b.maxWid >= widths[i])
            || b.xoff >= a.xoff + widths[i] + 2
    ensures ColumnOf(widths, dy, i).maxWid >= widths[i] && ColumnOf(widths, dy, j).maxWid >= 0
  {
    if i + 1 < j {
      LaterLabel(widths, dy, i, j - 1);
    }
  }

  /** No two labels overlap, whatever their widths and however low the graph. */
  lemma LabelsDisjoint(widths: seq<nat>, dy: int, i: nat, j: nat)
    requires i < j < |widths|
    ensures var a, b := LabelStart(widths, dy, i), LabelStart(widths, dy, j);
            (a.x == b.x && a.y < b.y) || a.x + widths[i] + 2 <= b.x
  {
    LaterLabel(widths, dy, i, j);
  }

  lemma {:induction false} RowOfLabel(widths: seq<nat>, dy: int, i: nat)
    requires i < |widths|
    ensures var y := LabelStart(widths, dy, i).y; 1 <= y <= Max(1, dy - 1)
    ensures ColumnOf(widths, dy, i).yoff + i >= 0 && ColumnOf(widths, dy, i).yoff <= 0
  {
    if i > 0 {
      RowOfLabel(widths, dy, i - 1);
    }
  }

  /** Every label is on a row of the graph exactly when the graph is at least two cells high. */
  lemma LabelsInsideIffRoom(widths: seq<nat>, dy: int, i: nat)
    requires i < |widths|
    ensures 0 <= LabelStart(widths, dy, i).y < dy <==> dy >= 2
  {
    RowOfLabel(widths, dy, i);
  }

  lemma {:induction false} ColumnsGoRight(widths: seq<nat>, dy: int, i: nat)
    requires i < |widths|
    ensures ColumnOf(widths, dy, i).xoff >= 0 && ColumnOf(widths, dy, i).maxWid >= 0
    ensures LabelStart(widths, dy, i).x >= 2
  {
    if i > 0 {
      ColumnsGoRight(widths, dy, i - 1);
    }
  }

  // ---------------------------------------------------------------- the grid of labels

  /** The labels of a full column: all rows of the graph but one, or one where there is no room. */
  function PerColumn(dy: int): nat {
    Max(1, dy - 1)
  }

  /** The widest of the labels from one number up to another. */
  function Widest(widths: seq<nat>, from: nat, to: nat): nat
    requires from <= to <= |widths|
  {
    if from == to then 0 else Max(widths[to - 1], Widest(widths, from, to - 1))
  }

  /** The first label of the column that a label is in. */
  function FirstInColumn(i: nat, dy: int): (first: nat)
    ensures first <= i
  {
    RestAtMost(i, PerColumn(dy));
    i - i % PerColumn(dy)
  }

  lemma RestAtMost(i: nat, h: nat)
    requires h >= 1
    ensures 0 <= i % h <= i
  {
    if i >= h {
      assert i % h < h;
    }
  }

  lemma NextInColumn(i: nat, h: nat)
    requires h >= 1 && i >= 1
    ensures i % h == if (i - 1) % h == h - 1 then 0 else (i - 1) % h + 1
  {
    var q, r := (i - 1) / h, (i - 1) % h;
    assert i - 1 == h * q + r && i == h * (i / h) + i % h;
    if r == h - 1 {
      assert i == h * (q + 1);
      QuotientUnique(i, h, i / h, q + 1);
    } else {
      QuotientUnique(i, h, i / h, q);
    }
  }

  lemma {:induction false} ColumnsInGrid(widths: seq<nat>, dy: int, i: nat)
    requires i < |widths|
    ensures ColumnOf(widths, dy, i).yoff + FirstInColumn(i, dy) == 0
    ensures ColumnOf(widths, dy, i).maxWid == Widest(widths, FirstInColumn(i, dy), i + 1)
  {
    hide PerColumn;
    var h := PerColumn(dy);
    assert h == Max(1, dy - 1) by {
      PerColumnIs(dy);
    }
    if i > 0 {
      ColumnsInGrid(widths, dy, i - 1);
      NextInColumn(i, h);
    }
  }

  lemma PerColumnIs(dy: int)
    ensures PerColumn(dy) == Max(1, dy - 1)
  {
  }

  /** The labels fill the graph column by column from the second row down, one for each row but the first. The
      first column starts two cells from the left, and each other one two cells right of the widest label of
      the column before; in a graph of less than two rows the columns start another two cells further right. */
  lemma LabelGrid(widths: seq<nat>, dy: int, i: nat)
    requires i < |widths|
    ensures var h, start := PerColumn(dy), LabelStart(widths, dy, i);
            && start.y == 1 + i % h
            && start.x == if i == 0 then (if dy >= 2 then 2 else 4)
                          else if i % h != 0 || i < h then LabelStart(widths, dy, i - 1).x
                          else LabelStart(widths, dy, i - 1).x + Widest(widths, i - h, i) + 2
  {
    ColumnsInGrid(widths, dy, i);
    if i > 0 {
      ColumnsInGrid(widths, dy, i - 1);
      NextInColumn(i, PerColumn(dy));
    }
    hide Widest;
  }

  // ---------------------------------------------------------------- printing

  function RuneOf(c: char): Rune {
    c as int as bv32
  }

  /** Octets before the j-th character: where `range` says it is. */
  function Offset(s: string, j: nat): nat
    requires j <= |s|
  {
    if j == 0 then 0 else Offset(s, j - 1) + Octets(RuneOf(s[j - 1]))
  }

  /** Go's `len`. */
  function Length(s: string): nat {
    Offset(s, |s|)
  }

  lemma {:induction false} OffsetsIncrease(s: string, j: nat, k: nat)
    requires j < k <= |s|
    ensures Offset(s, j) < Offset(s, k)
  {
    if j + 1 < k {
      OffsetsIncrease(s, j, k - 1);
    }
  }

  function Widths(labels: seq<string>): (w: seq<nat>)
    ensures |w| == |labels|
  {
    seq(|labels|, i requires 0 <= i < |labels| => Length(labels[i]))
  }

  /** Where the j-th character of the i-th label is printed. */
  function LabelPos(labels: seq<string>, dy: int, origin: Point, i: nat, j: nat): Point
    requires i < |labels| && j < |labels[i]|
  {
    var start := LabelStart(Widths(labels), dy, i);
    Point(origin.x + start.x + Offset(labels[i], j), origin.y + start.y)
  }

  /** No character of a label is printed over another. */
  lemma LabelCharsApart(labels: seq<string>, dy: int, origin: Point, i: nat, j: nat, k: nat, l: nat)
    requires i < |labels| && j < |labels[i]| && k < |labels| && l < |labels[k]|
    ensures LabelPos(labels, dy, origin, i, j) == LabelPos(labels, dy, origin, k, l) <==> i == k && j == l
  {
    var widths := Widths(labels);
    OffsetsIncrease(labels[i], j, |labels[i]|);
    OffsetsIncrease(labels[k], l, |labels[k]|);
    assert widths[i] == Length(labels[i]) && widths[k] == Length(labels[k]);
    if i < k {
      LabelsDisjoint(widths, dy, i, k);
    } else if k < i {
      LabelsDisjoint(widths, dy, k, i);
    } else if j < l {
      OffsetsIncrease(labels[i], j, l);
    } else if l < j {
      OffsetsIncrease(labels[i], l, j);
    }
    hide LabelStart, Widths, Offset, Length;
  }

  /** One past the last of the first n characters that is printed: spaces are not. */
  function PrintedEnd(s: string, n: nat): nat
    requires n <= |s|
  {
    if n == 0 then 0 else if s[n - 1] != ' ' then Offset(s, n - 1) + 1 else PrintedEnd(s, n - 1)
  }

  lemma {:induction false} PrintedBeforeEnd(s: string, n: nat)
    requires n <= |s|
    ensures forall j :: 0 <= j < n && s[j] != ' ' ==> Offset(s, j) < PrintedEnd(s, n)
    ensures PrintedEnd(s, n) > 0 ==> exists j :: 0 <= j < n && s[j] != ' ' && Offset(s, j) == PrintedEnd(s, n) - 1
  {
    hide Offset;
    if n > 0 {
      PrintedBeforeEnd(s, n - 1);
      if s[n - 1] != ' ' {
        forall j | 0 <= j < n - 1
          ensures Offset(s, j) < Offset(s, n - 1)
        {
          OffsetsIncrease(s, j, n - 1);
        }
      }
    }
  }

  predicate CharInside(labels: seq<string>, dx: int, dy: int, i: nat, j: nat)
    requires i < |labels| && j < |labels[i]|
  {
    var p := LabelPos(labels, dy, Point(0, 0), i, j);
    0 <= p.x < dx && 0 <= p.y < dy
  }

  /** Columns are never held against the width, so what is printed of a label keeps to the graph exactly if
      there is a row for it and its last printed character ends before the right edge. */
  lemma LabelInsideIffFits(labels: seq<string>, dx: int, dy: int, i: nat)
    requires i < |labels|
    ensures var end := PrintedEnd(labels[i], |labels[i]|);
            (forall j :: 0 <= j < |labels[i]| && labels[i][j] != ' ' ==> CharInside(labels, dx, dy, i, j))
            <==> (end == 0 || (dy >= 2 && LabelStart(Widths(labels), dy, i).x + end <= dx))
  {
    var widths, s := Widths(labels), labels[i];
    LabelsInsideIffRoom(widths, dy, i);
    ColumnsGoRight(widths, dy, i);
    PrintedBeforeEnd(s, |s|);
    hide LabelStart, Widths, Offset, PrintedEnd;
    var end := PrintedEnd(s, |s|);
    if end > 0 {
      var last :| 0 <= last < |s| && s[last] != ' ' && Offset(s, last) == end - 1;
      assert CharInside(labels, dx, dy, i, last) <==> dy >= 2 && LabelStart(widths, dy, i).x + end <= dx;
    }
  }

  /** Does the label loop print at p before it reaches the j-th character of the i-th label? */
  predicate PrintedBefore(labels: seq<string>, dy: int, origin: Point, i: nat, j: nat, p: Point)
  {
    exists k, l :: 0 <= k < |labels| && 0 <= l < |labels[k]| && (k < i || (k == i && l < j))
                   && labels[k][l] != ' ' && LabelPos(labels, dy, origin, k, l) == p
  }

  /** The screen after the labels: each character that is not a space is there in its series' style,
      and nothing else has changed. */
  ghost predicate LabelsShow(before: Cells, after: Cells, labels: seq<string>, styles: seq<Style>, dy: int, origin: Point)
    requires |styles| == |labels|
  {
    && (forall i, j :: 0 <= i < |labels| && 0 <= j < |labels[i]| && labels[i][j] != ' ' ==>
          var p := LabelPos(labels, dy, origin, i, j);
          p in after && after[p] == Cell(Letter(labels[i][j]), styles[i]))
    && (forall p: Point :: !PrintedBefore(labels, dy, origin, |labels|, 0, p) ==>
          (p in after <==> p in before) && (p in after ==> after[p] == before[p]))
  }

  ghost predicate LabelsShowUpTo(before: Cells, after: Cells, labels: seq<string>, styles: seq<Style>, dy: int,
                                 origin: Point, i: nat, j: nat)
    requires |styles| == |labels|
  {
    && (forall k, l :: 0 <= k < |labels| && 0 <= l < |labels[k]| && (k < i || (k == i && l < j)) && labels[k][l] != ' ' ==>
          var p := LabelPos(labels, dy, origin, k, l);
          p in after && after[p] == Cell(Letter(labels[k][l]), styles[k]))
    && (forall p: Point :: !PrintedBefore(labels, dy, origin, i, j, p) ==>
          (p in after <==> p in before) && (p in after ==> after[p] == before[p]))
  }

  lemma NothingPrinted(before: Cells, labels: seq<string>, styles: seq<Style>, dy: int, origin: Point)
    requires |styles| == |labels|
    ensures LabelsShowUpTo(before, before, labels, styles, dy, origin, 0, 0)
  {
  }

  lemma PrintOneMore(before: Cells, after: Cells, labels: seq<string>, styles: seq<Style>, dy: int, origin: Point,
                     i: nat, j: nat)
    requires |styles| == |labels| && i < |labels| && j < |labels[i]|
    requires LabelsShowUpTo(before, after, labels, styles, dy, origin, i, j)
    ensures var p := LabelPos(labels, dy, origin, i, j);
            var printed := if labels[i][j] == ' ' then after else after[p := Cell(Letter(labels[i][j]), styles[i])];
            LabelsShowUpTo(before, printed, labels, styles, dy, origin, i, j + 1)
  {
    hide LabelPos;
    var p := LabelPos(labels, dy, origin, i, j);
    var printed := if labels[i][j] == ' ' then after else after[p := Cell(Letter(labels[i][j]), styles[i])];
    forall k, l | 0 <= k < |labels| && 0 <= l < |labels[k]| && (k < i || (k == i && l < j + 1)) && labels[k][l] != ' '
      ensures var q := LabelPos(labels, dy, origin, k, l);
              q in printed && printed[q] == Cell(Letter(labels[k][l]), styles[k])
    {
      LabelCharsApart(labels, dy, origin, i, j, k, l);
    }
    forall q: Point | !PrintedBefore(labels, dy, origin, i, j + 1, q)
      ensures (q in printed <==> q in before) && (q in printed ==> printed[q] == before[q])
    {
      if labels[i][j] != ' ' {
        assert q != p;
      }
      assert !PrintedBefore(labels, dy, origin, i, j, q);
    }
  }

  lemma NextLabel(before: Cells, after: Cells, labels: seq<string>, styles: seq<Style>, dy: int, origin: Point, i: nat)
    requires |styles| == |labels| && i < |labels|
    requires LabelsShowUpTo(before, after, labels, styles, dy, origin, i, |labels[i]|)
    ensures LabelsShowUpTo(before, after, labels, styles, dy, origin, i + 1, 0)
  {
    hide LabelPos;
    forall q: Point | !PrintedBefore(labels, dy, origin, i + 1, 0, q)
      ensures !PrintedBefore(labels, dy, origin, i, |labels[i]|, q)
    {
    }
  }

  lemma NextColumn(labels: seq<string>, dy: int, i: nat)
    requires i < |labels|
    ensures var widths := Widths(labels);
            var before := if i == 0 then Column(0, 0, 0) else ColumnOf(widths, dy, i - 1);
            var column := Wrapped(before, i, dy);
            ColumnOf(widths, dy, i) == column.(maxWid := Max(Length(labels[i]), column.maxWid))
  {
  }

  lemma LabelAt(labels: seq<string>, dy: int, origin: Point, i: nat, j: nat, column: Column)
    requires i < |labels| && j < |labels[i]| && column == ColumnOf(Widths(labels), dy, i)
    ensures LabelPos(labels, dy, origin, i, j) ==
              Point(column.xoff + origin.x + 2 + Offset(labels[i], j), column.yoff + origin.y + i + 1)
  {
  }

  lemma AllPrinted(before: Cells, after: Cells, labels: seq<string>, styles: seq<Style>, dy: int, origin: Point)
    requires |styles| == |labels|
    requires LabelsShowUpTo(before, after, labels, styles, dy, origin, |labels|, 0)
    ensures LabelsShow(before, after, labels, styles, dy, origin)
  {
    hide LabelPos;
  }

  /** Prints one label, character by character. */
  method PrintLabel(buf: Buffer, labels: seq<string>, styles: seq<Style>, dy: int, origin: Point, i: nat, column: Column,
                    ghost before: Cells)
    requires |styles| == |labels| && i < |labels| && column == ColumnOf(Widths(labels), dy, i)
    requires LabelsShowUpTo(before, buf.cells, labels, styles, dy, origin, i, 0)
    modifies buf
    ensures LabelsShowUpTo(before, buf.cells, labels, styles, dy, origin, i, |labels[i]|)
  {
    hide LabelsShowUpTo, PrintedBefore, Octets, ColumnOf, LabelPos, LabelStart, Widths;
    var str := labels[i];
    var k := 0;
    for j := 0 to |str|
      invariant k == Offset(str, j)
      invariant LabelsShowUpTo(before, buf.cells, labels, styles, dy, origin, i, j)
    {
      PrintOneMore(before, buf.cells, labels, styles, dy, origin, i, j);
      LabelAt(labels, dy, origin, i, j, column);
      if str[j] != ' ' {
        buf.SetCell(Cell(Letter(str[j]), styles[i]),
                    Point(column.xoff + origin.x + 2 + k, column.yoff + origin.y + i + 1));
      }
      k := k + Octets(RuneOf(str[j]));
    }
  }

  /** Prints the labels of all series. */
  method PrintLabels(buf: Buffer, labels: seq<string>, styles: seq<Style>, dy: int, origin: Point)
    requires |styles| == |labels|
    modifies buf
    ensures LabelsShow(old(buf.cells), buf.cells, labels, styles, dy, origin)
  {
    hide LabelsShowUpTo, PrintedBefore, Octets, ColumnOf, LabelPos, LabelStart, Widths;
    ghost var before, widths := buf.cells, Widths(labels);
    NothingPrinted(before, labels, styles, dy, origin);
    var maxWid, xoff, yoff := 0, 0, 0;
    for i := 0 to |labels|
      invariant Column(xoff, yoff, maxWid) == if i == 0 then Column(0, 0, 0) else ColumnOf(widths, dy, i - 1)
      invariant LabelsShowUpTo(before, buf.cells, labels, styles, dy, origin, i, 0)
    {
      if yoff + i + 2 > dy {
        xoff := xoff + maxWid + 2;
        yoff := -i;
        maxWid := 0;
      }
      var str := labels[i];
      if Length(str) > maxWid {
        maxWid := Length(str);
      }
      NextColumn(labels, dy, i);
      assert Column(xoff, yoff, maxWid) == ColumnOf(widths, dy, i);
      PrintLabel(buf, labels, styles, dy, origin, i, Column(xoff, yoff, maxWid), before);
      NextLabel(before, buf.cells, labels, styles, dy, origin, i);
    }
    AllPrinted(before, buf.cells, labels, styles, dy, origin);
  }
}
