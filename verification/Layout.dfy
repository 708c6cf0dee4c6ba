/** The row packer of layout/layout.go: rows of widgets, some of them spanning several rows, become
    blocks of columns. */
module Layout {
  import opened GoInt
  import opened Slices

  datatype WidgetRule = WidgetRule(widget: string, weight: real, height: Int64)

  type LayoutRow = seq<WidgetRule>

  /** What ParseLayout produces: no empty row, and no widget less than one row high. */
  predicate IsLayout(rows: seq<LayoutRow>) {
    forall i :: 0 <= i < |rows| ==> rows[i] != [] && forall j :: 0 <= j < |rows[i]| ==> rows[i][j].height >= 1
  }

  // ---------------------------------------------------------------- heights

  /** The height of the tallest widget, at least one. */
  function RowHeight(row: LayoutRow): (h: Int64)
    ensures h >= 1
    ensures forall j :: 0 <= j < |row| ==> row[j].height <= h
    ensures h == 1 || exists j :: 0 <= j < |row| && row[j].height == h
  {
    if row == [] then 1
    else
      var h := RowHeight(row[..|row| - 1]);
      assert forall j :: 0 <= j < |row| - 1 ==> row[j] == row[..|row| - 1][j];
      Max(row[|row| - 1].height, h)
  }

  /** The rows that start a block when every block takes as many rows as it is high. */
  function NumRows(rows: seq<LayoutRow>): nat {
    if rows == [] then 0
    else
      var h := RowHeight(rows[0]);
      1 + if h < |rows| then NumRows(rows[h..]) else 0
  }

  /** Their heights added up. */
  function MaxHeight(rows: seq<LayoutRow>): int {
    if rows == [] then 0
    else
      var h := RowHeight(rows[0]);
      h + if h < |rows| then MaxHeight(rows[h..]) else 0
  }

  method TallestWidget(line: LayoutRow) returns (h: Int64)
    ensures h == RowHeight(line)
  {
    h := 1;
    for i := 0 to |line|
      invariant h == RowHeight(line[..i])
    {
      assert line[..i + 1][..i] == line[..i];
      if line[i].height > h {
        h := line[i].height;
      }
    }
    assert line[..|line|] == line;
  }

  method CountNumRows(rows: seq<LayoutRow>) returns (ttl: nat)
    ensures ttl == NumRows(rows)
  {
    ttl := 0;
    var rs := rows;
    while |rs| > 0
      invariant ttl + NumRows(rs) == NumRows(rows)
      decreases |rs|
    {
      ttl := ttl + 1;
      var h := TallestWidget(rs[0]);
      if h < |rs| {
        rs := rs[h..];
      } else {
        rs := [];
      }
    }
  }

  method CountMaxHeight(rows: seq<LayoutRow>) returns (ttl: Int64)
    ensures ttl == Wrap(MaxHeight(rows))
  {
    hide Wrap;
    ttl := 0;
    var rs := rows;
    while |rs| > 0
      invariant Wrap(ttl + MaxHeight(rs)) == Wrap(MaxHeight(rows))
      decreases |rs|
    {
      var h := TallestWidget(rs[0]);
      WrapTwice(ttl + h, MaxHeight(rs) - h);
      ttl := Wrap(ttl + h);
      if h < |rs| {
        rs := rs[h..];
      } else {
        rs := [];
      }
    }
    WrapTwice(ttl, 0);
  }

  // ---------------------------------------------------------------- what a block holds

  /** Where the widget of a row went; rows are counted from the first of the block. */
  datatype Placement = Placement(row: nat, index: nat, col: nat)

  /** The positions before the index-th widget of a row, in reading order. */
  function Before(rows: seq<LayoutRow>, row: nat, index: nat): seq<(nat, nat)>
    requires row <= |rows| && (row == |rows| ==> index == 0)
    requires row < |rows| ==> index <= |rows[row]|
    decreases row, index
  {
    if index > 0 then Before(rows, row, index - 1) + [(row, index - 1)]
    else if row > 0 then Before(rows, row - 1, |rows[row - 1]|)
    else []
  }

  function Positions(log: seq<Placement>): seq<(nat, nat)> {
    seq(|log|, t requires 0 <= t < |log| => (log[t].row, log[t].index))
  }

  predicate InRows(rows: seq<LayoutRow>, log: seq<Placement>) {
    forall t :: 0 <= t < |log| ==> log[t].row < |rows| && log[t].index < |rows[log[t].row]|
  }

  /** The widgets that went to column k, top down. */
  function Column(rows: seq<LayoutRow>, log: seq<Placement>, k: nat): seq<WidgetRule>
    requires InRows(rows, log)
  {
    if log == [] then []
    else
      var last := log[|log| - 1];
      Column(rows, log[..|log| - 1], k) + if last.col == k then [rows[last.row][last.index]] else []
  }

  function TotalHeight(widgets: seq<WidgetRule>): int {
    if widgets == [] then 0 else TotalHeight(widgets[..|widgets| - 1]) + widgets[|widgets| - 1].height
  }

  /** Is there room for the widget in column k below what is there? The heights are added in 64 bits. */
  predicate Fits(rows: seq<LayoutRow>, log: seq<Placement>, k: nat, height: int, maxHeight: int)
    requires InRows(rows, log)
  {
    Wrap(TotalHeight(Column(rows, log, k)) + height) <= maxHeight
  }

  /** The widget went to the leftmost column, not left of its own place in its row, with room for it. */
  predicate FirstFit(rows: seq<LayoutRow>, numCols: nat, maxHeight: int, log: seq<Placement>, p: Placement)
    requires InRows(rows, log) && p.row < |rows| && p.index < |rows[p.row]|
  {
    var height := rows[p.row][p.index].height;
    && p.index <= p.col < numCols
    && Fits(rows, log, p.col, height, maxHeight)
    && forall k :: p.index <= k < p.col ==> !Fits(rows, log, k, height, maxHeight)
  }

  predicate AllFirstFit(rows: seq<LayoutRow>, numCols: nat, maxHeight: int, log: seq<Placement>)
    requires InRows(rows, log)
  {
    forall t :: 0 <= t < |log| ==> FirstFit(rows, numCols, maxHeight, log[..t], log[t])
  }

  /** A widget for which no column from its own place on has room. */
  predicate Stuck(rows: seq<LayoutRow>, numCols: nat, maxHeight: int, log: seq<Placement>, row: nat, index: nat)
    requires InRows(rows, log) && row < |rows| && index < |rows[row]|
  {
    forall k :: index <= k < numCols ==> !Fits(rows, log, k, rows[row][index].height, maxHeight)
  }

  /** What a block does to the rows it starts with: it places all widgets of the first `used` rows, in
      reading order and first-fit. It stops after as many rows as it is high, at the end of the rows,
      or in front of the first widget without room; then it has placed the first `partial` widgets of
      a row that it nevertheless leaves to the next block. */
  predicate Packs(rows: seq<LayoutRow>, maxHeight: int, used: nat, partial: nat, log: seq<Placement>) {
    && rows != [] && maxHeight == RowHeight(rows[0])
    && 1 <= used <= |rows| && used <= maxHeight
    && InRows(rows, log)
    && AllFirstFit(rows, |rows[0]|, maxHeight, log)
    && (if used == Min(maxHeight, |rows|) then partial == 0
        else partial < |rows[used]| && Stuck(rows, |rows[0]|, maxHeight, log, used, partial))
    && Positions(log) == Before(rows, used, partial)
  }

  /** A column of the screen: its weight, and each widget with its share of the height. */
  datatype UiColumn = UiColumn(weight: real, items: seq<(real, WidgetRule)>)

  function UiItems(widgets: seq<WidgetRule>, maxHeight: int): (items: seq<(real, WidgetRule)>)
    requires maxHeight >= 1
    ensures |items| == |widgets|
  {
    seq(|widgets|, i requires 0 <= i < |widgets| => (widgets[i].height as real / maxHeight as real, widgets[i]))
  }

  /** Every column of the first row is there, with its weight. */
  function UiColumns(rows: seq<LayoutRow>, log: seq<Placement>, maxHeight: int): seq<UiColumn>
    requires rows != [] && InRows(rows, log) && maxHeight >= 1
  {
    seq(|rows[0]|, k requires 0 <= k < |rows[0]| =>
      UiColumn(rows[0][k].weight, UiItems(Column(rows, log, k), maxHeight)))
  }

  // ---------------------------------------------------------------- packing one block

  /** The loop's two tables agree with the placements so far. */
  ghost predicate Tallied(rows: seq<LayoutRow>, log: seq<Placement>, maxHeight: int,
                          heights: seq<int>, columns: seq<seq<(real, WidgetRule)>>)
    requires rows != [] && InRows(rows, log) && maxHeight >= 1
  {
    && |heights| == |rows[0]| && |columns| == |rows[0]|
    && forall k :: 0 <= k < |heights| ==>
         && heights[k] == Wrap(TotalHeight(Column(rows, log, k))) <= maxHeight
         && columns[k] == UiItems(Column(rows, log, k), maxHeight)
  }

  lemma PlaceOne(rows: seq<LayoutRow>, log: seq<Placement>, p: Placement, k: nat)
    requires InRows(rows, log) && p.row < |rows| && p.index < |rows[p.row]|
    ensures InRows(rows, log + [p])
    ensures Column(rows, log + [p], k) == Column(rows, log, k) + if p.col == k then [rows[p.row][p.index]] else []
  {
    assert (log + [p])[..|log|] == log;
  }

  lemma AddToColumn(widgets: seq<WidgetRule>, widget: WidgetRule, maxHeight: int)
    requires maxHeight >= 1
    ensures TotalHeight(widgets + [widget]) == TotalHeight(widgets) + widget.height
    ensures UiItems(widgets + [widget], maxHeight)
         == UiItems(widgets, maxHeight) + [(widget.height as real / maxHeight as real, widget)]
  {
    assert (widgets + [widget])[..|widgets|] == widgets;
  }

  lemma TallyOne(rows: seq<LayoutRow>, log: seq<Placement>, p: Placement, maxHeight: int,
                 heights: seq<int>, columns: seq<seq<(real, WidgetRule)>>)
    requires rows != [] && InRows(rows, log) && maxHeight >= 1 && Tallied(rows, log, maxHeight, heights, columns)
    requires p.row < |rows| && p.index < |rows[p.row]| && p.col < |heights|
    requires Wrap(heights[p.col] + rows[p.row][p.index].height) <= maxHeight
    ensures InRows(rows, log + [p])
    ensures var widget := rows[p.row][p.index];
            Tallied(rows, log + [p], maxHeight, heights[p.col := Wrap(heights[p.col] + widget.height)],
                    columns[p.col := columns[p.col] + [(widget.height as real / maxHeight as real, widget)]])
  {
    hide Column, TotalHeight, UiItems, Wrap;
    WrapTwice(TotalHeight(Column(rows, log, p.col)), rows[p.row][p.index].height);
    forall k | 0 <= k < |heights|
      ensures Column(rows, log + [p], k) == Column(rows, log, k) + if p.col == k then [rows[p.row][p.index]] else []
    {
      PlaceOne(rows, log, p, k);
    }
    PlaceOne(rows, log, p, 0);
    AddToColumn(Column(rows, log, p.col), rows[p.row][p.index], maxHeight);
    assert forall k :: 0 <= k < |heights| && k != p.col ==> Column(rows, log + [p], k) == Column(rows, log, k);
  }

  lemma FirstFitOneMore(rows: seq<LayoutRow>, numCols: nat, maxHeight: int, log: seq<Placement>, p: Placement)
    requires InRows(rows, log) && p.row < |rows| && p.index < |rows[p.row]|
    requires AllFirstFit(rows, numCols, maxHeight, log) && FirstFit(rows, numCols, maxHeight, log, p)
    ensures InRows(rows, log + [p]) && AllFirstFit(rows, numCols, maxHeight, log + [p])
  {
    hide FirstFit;
    forall t | 0 <= t < |log + [p]|
      ensures FirstFit(rows, numCols, maxHeight, (log + [p])[..t], (log + [p])[t])
    {
      assert (log + [p])[..t] == log[..t];
      if t == |log| {
        assert log[..t] == log;
      }
    }
  }

  lemma NextPosition(rows: seq<LayoutRow>, row: nat, index: nat, log: seq<Placement>, col: nat)
    requires row < |rows| && index < |rows[row]| && Positions(log) == Before(rows, row, index)
    ensures Positions(log + [Placement(row, index, col)]) == Before(rows, row, index + 1)
  {
    assert Positions(log + [Placement(row, index, col)]) == Positions(log) + [(row, index)];
  }

  /** Looks for the leftmost column with room, from the widget's own place on. */
  method FindColumn(colHeights: array<Int64>, index: nat, height: Int64, maxHeight: int) returns (k: nat, found: bool)
    ensures found ==> index <= k < colHeights.Length && Wrap(colHeights[k] + height) <= maxHeight
    ensures forall j :: index <= j < (if found then k else colHeights.Length) ==> Wrap(colHeights[j] + height) > maxHeight
  {
    hide Wrap;
    k := index;
    while k < colHeights.Length
      invariant index <= k
      invariant forall j :: index <= j < k && j < colHeights.Length ==> Wrap(colHeights[j] + height) > maxHeight
    {
      if Wrap(colHeights[k] + height) <= maxHeight {
        return k, true;
      }
      k := k + 1;
    }
    return k, false;
  }

  /** The columns that row 0 has reached are no longer empty, the others still are. */
  ghost predicate FirstRowSpread(rows: seq<LayoutRow>, log: seq<Placement>, index: nat)
    requires rows != [] && InRows(rows, log)
  {
    forall k :: 0 <= k < |rows[0]| ==> (Column(rows, log, k) != [] <==> k < index)
  }

  /** Places the widgets of a row until one finds no room; returns how many it has placed. */
  method PlaceRow(row: LayoutRow, maxHeight: int, colHeights: array<Int64>, columns: array<seq<(real, WidgetRule)>>,
                  ghost rows: seq<LayoutRow>, ghost i: nat, ghost log: seq<Placement>)
    returns (placed: nat, ghost newLog: seq<Placement>)
    requires IsLayout(rows) && i < |rows| && row == rows[i] && maxHeight == RowHeight(rows[0])
    requires InRows(rows, log) && AllFirstFit(rows, |rows[0]|, maxHeight, log) && Positions(log) == Before(rows, i, 0)
    requires Tallied(rows, log, maxHeight, colHeights[..], columns[..])
    requires FirstRowSpread(rows, log, if i == 0 then 0 else |rows[0]|)
    modifies colHeights, columns
    ensures placed <= |row| && InRows(rows, newLog) && AllFirstFit(rows, |rows[0]|, maxHeight, newLog)
    ensures Positions(newLog) == Before(rows, i, placed)
    ensures Tallied(rows, newLog, maxHeight, colHeights[..], columns[..])
    ensures FirstRowSpread(rows, newLog, |rows[0]|) && (i == 0 ==> placed == |row|)
    ensures placed < |row| ==> Stuck(rows, |rows[0]|, maxHeight, newLog, i, placed)
  {
    hide AllFirstFit, Column, TotalHeight, UiItems, Positions, RowHeight, Wrap;
    newLog := log;
    placed := 0;
    while placed < |row|
      invariant placed <= |row| && InRows(rows, newLog) && AllFirstFit(rows, |rows[0]|, maxHeight, newLog)
      invariant Positions(newLog) == Before(rows, i, placed)
      invariant Tallied(rows, newLog, maxHeight, colHeights[..], columns[..])
      invariant FirstRowSpread(rows, newLog, if i == 0 then placed else |rows[0]|)
    {
      var widg := row[placed];
      var k, found := FindColumn(colHeights, placed, widg.height, maxHeight);
      assert i == 0 ==> found && k == placed by {
        if i == 0 {
          assert Column(rows, newLog, placed) == [];
          EmptyColumn();
          assert colHeights[placed] == colHeights[..][placed] == 0;
          TallEnough(rows[0], placed);
          WrapTwice(widg.height, 0);
        }
      }
      if !found {
        assert forall j :: placed <= j < colHeights.Length ==> Wrap(colHeights[..][j] + widg.height) > maxHeight;
        StuckByTally(rows, newLog, maxHeight, colHeights[..], columns[..], i, placed);
        return;
      }
      ghost var p := Placement(i, placed, k);
      SpreadOneMore(rows, newLog, p);
      FitsByTally(rows, newLog, maxHeight, colHeights[..], columns[..], p);
      TallyOne(rows, newLog, p, maxHeight, colHeights[..], columns[..]);
      FirstFitOneMore(rows, |rows[0]|, maxHeight, newLog, p);
      NextPosition(rows, i, placed, newLog, k);
      columns[k] := columns[k] + [(widg.height as real / maxHeight as real, widg)];
      colHeights[k] := Wrap(colHeights[k] + widg.height);
      newLog := newLog + [p];
      placed := placed + 1;
    }
  }

  lemma EmptyColumn()
    ensures TotalHeight([]) == 0 && Wrap(0) == 0
  {
  }

  lemma TallEnough(row: LayoutRow, j: nat)
    requires j < |row|
    ensures row[j].height <= RowHeight(row)
  {
  }

  lemma SpreadOneMore(rows: seq<LayoutRow>, log: seq<Placement>, p: Placement)
    requires rows != [] && InRows(rows, log) && p.row < |rows| && p.index < |rows[p.row]| && p.col < |rows[0]|
    ensures InRows(rows, log + [p])
    ensures forall index: nat :: FirstRowSpread(rows, log, index) && (p.col == index || p.col < index) ==>
              FirstRowSpread(rows, log + [p], Max(index, p.col + 1))
  {
    hide Column;
    PlaceOne(rows, log, p, 0);
    forall k | 0 <= k < |rows[0]|
      ensures Column(rows, log + [p], k) == Column(rows, log, k) + if p.col == k then [rows[p.row][p.index]] else []
    {
      PlaceOne(rows, log, p, k);
    }
  }

  lemma FitsByTally(rows: seq<LayoutRow>, log: seq<Placement>, maxHeight: int,
                    heights: seq<int>, columns: seq<seq<(real, WidgetRule)>>, p: Placement)
    requires rows != [] && InRows(rows, log) && maxHeight >= 1 && Tallied(rows, log, maxHeight, heights, columns)
    requires p.row < |rows| && p.index < |rows[p.row]| && p.index <= p.col < |heights|
    requires Wrap(heights[p.col] + rows[p.row][p.index].height) <= maxHeight
    requires forall j :: p.index <= j < p.col ==> Wrap(heights[j] + rows[p.row][p.index].height) > maxHeight
    ensures FirstFit(rows, |rows[0]|, maxHeight, log, p)
  {
    FitsByHeight(rows, log, maxHeight, heights, columns, p.row, p.index);
    hide Fits, Tallied, Wrap;
  }

  /** The table is as good as the heights added up at once. */
  lemma FitsByHeight(rows: seq<LayoutRow>, log: seq<Placement>, maxHeight: int,
                     heights: seq<int>, columns: seq<seq<(real, WidgetRule)>>, row: nat, index: nat)
    requires rows != [] && InRows(rows, log) && maxHeight >= 1 && Tallied(rows, log, maxHeight, heights, columns)
    requires row < |rows| && index < |rows[row]|
    ensures |heights| == |rows[0]|
    ensures forall j :: 0 <= j < |heights| ==>
              (Wrap(heights[j] + rows[row][index].height) <= maxHeight
               <==> Fits(rows, log, j, rows[row][index].height, maxHeight))
  {
    hide Column, TotalHeight, UiItems, Wrap;
    forall j | 0 <= j < |heights|
      ensures Wrap(heights[j] + rows[row][index].height) <= maxHeight
         <==> Fits(rows, log, j, rows[row][index].height, maxHeight)
    {
      WrapTwice(TotalHeight(Column(rows, log, j)), rows[row][index].height);
    }
  }

  /** The same where no column has room. */
  lemma StuckByTally(rows: seq<LayoutRow>, log: seq<Placement>, maxHeight: int,
                     heights: seq<int>, columns: seq<seq<(real, WidgetRule)>>, row: nat, index: nat)
    requires rows != [] && InRows(rows, log) && maxHeight >= 1 && Tallied(rows, log, maxHeight, heights, columns)
    requires row < |rows| && index < |rows[row]|
    requires forall j :: index <= j < |heights| ==> Wrap(heights[j] + rows[row][index].height) > maxHeight
    ensures Stuck(rows, |rows[0]|, maxHeight, log, row, index)
  {
    FitsByHeight(rows, log, maxHeight, heights, columns, row, index);
    hide Fits, Tallied, Wrap;
  }

  /** Are all columns higher than the block? */
  method IsFull(colHeights: array<Int64>, maxHeight: int) returns (full: bool)
    ensures full <==> forall k :: 0 <= k < colHeights.Length ==> colHeights[k] > maxHeight
  {
    full := true;
    for k := 0 to colHeights.Length
      invariant full && forall j :: 0 <= j < k ==> colHeights[j] > maxHeight
    {
      if colHeights[k] <= maxHeight {
        full := false;
        break;
      }
    }
  }

  /** Places row after row; stops in front of the first row that does not fit completely. */
  method PackRows(processing: seq<LayoutRow>, maxHeight: int, ghost rows: seq<LayoutRow>)
    returns (columns: seq<seq<(real, WidgetRule)>>, used: nat, ghost partial: nat, ghost log: seq<Placement>)
    requires IsLayout(rows) && rows != [] && maxHeight == RowHeight(rows[0])
    requires processing == rows[..Min(maxHeight, |rows|)]
    ensures Packs(rows, maxHeight, used, partial, log)
    ensures |columns| == |rows[0]|
    ensures forall k :: 0 <= k < |columns| ==>
              columns[k] == UiItems(Column(rows, log, k), maxHeight) && Column(rows, log, k) != []
  {
    hide AllFirstFit, Column, TotalHeight, UiItems, Positions, RowHeight, IsLayout;
    var numCols := |processing[0]|;
    assert numCols >= 1 by {
      FirstRowNotEmpty(rows);
    }
    var colHeights := new Int64[numCols](_ => 0);
    var items := new seq<(real, WidgetRule)>[numCols](_ => []);
    log, partial := [], 0;
    NothingPlaced(rows, maxHeight, colHeights[..], items[..]);
    used := 0;
    while used < |processing|
      invariant used <= |processing| && InRows(rows, log) && AllFirstFit(rows, numCols, maxHeight, log)
      invariant Positions(log) == Before(rows, used, 0) && partial == 0
      invariant Tallied(rows, log, maxHeight, colHeights[..], items[..])
      invariant FirstRowSpread(rows, log, if used == 0 then 0 else numCols)
    {
      var full := IsFull(colHeights, maxHeight);
      assert colHeights[0] == colHeights[..][0] <= maxHeight;
      if full {
        assert false;
      }
      var placed;
      ghost var newLog;
      placed, newLog := PlaceRow(processing[used], maxHeight, colHeights, items, rows, used, log);
      log, partial := newLog, placed;
      if placed < |processing[used]| {
        break;
      }
      assert Before(rows, used + 1, 0) == Before(rows, used, |rows[used]|);
      used, partial := used + 1, 0;
    }
    columns := items[..];
  }

  lemma FirstRowNotEmpty(rows: seq<LayoutRow>)
    requires IsLayout(rows) && rows != []
    ensures rows[0] != []
  {
  }

  lemma NothingPlaced(rows: seq<LayoutRow>, maxHeight: int, heights: seq<int>, columns: seq<seq<(real, WidgetRule)>>)
    requires rows != [] && maxHeight >= 1 && |heights| == |rows[0]| && |columns| == |rows[0]|
    requires forall k :: 0 <= k < |heights| ==> heights[k] == 0 && columns[k] == []
    ensures Tallied(rows, [], maxHeight, heights, columns) && FirstRowSpread(rows, [], 0)
    ensures AllFirstFit(rows, |rows[0]|, maxHeight, []) && Positions([]) == Before(rows, 0, 0)
  {
  }

  /** Cuts the rows of one block off the front. */
  method Cut(rowDefs: Slice<LayoutRow>, maxHeight: int) returns (processing: Slice<LayoutRow>, rest: Slice<LayoutRow>)
    requires rowDefs.Valid() && maxHeight >= 1
    ensures processing.Valid() && rest.Valid()
    ensures processing == Slice(rowDefs.data, rowDefs.off, Min(maxHeight, rowDefs.len))
    ensures rest.len == rowDefs.len - processing.len
    ensures if maxHeight < rowDefs.len
            then rest.data == rowDefs.data && rest.off == rowDefs.off + maxHeight
            else fresh(rest.data) && rest.len == 0
  {
    if maxHeight < rowDefs.len {
      processing := rowDefs.Sub(0, maxHeight);
      rest := rowDefs.Sub(maxHeight, rowDefs.len);
    } else {
      processing := rowDefs.Sub(0, rowDefs.len);
      var none := new LayoutRow[0];
      rest := Slice(none, 0, 0);
    }
  }

  /** Puts the rows from the given one on back in front of the rest. What is appended to them is what
      already follows them in the array, so the array does not change. */
  method GiveBack(processing: Slice<LayoutRow>, rest: Slice<LayoutRow>, from: nat) returns (r: Slice<LayoutRow>)
    requires processing.Valid() && rest.Valid() && from <= processing.len
    requires rest.len == 0 || (rest.data == processing.data && rest.off == processing.off + processing.len)
    modifies processing.data
    ensures processing.data[..] == old(processing.data[..])
    ensures r == Slice(processing.data, processing.off + from, processing.len - from + rest.len) && r.Valid()
  {
    var remaining := processing.Sub(from, processing.len);
    ghost var before, added, end := processing.data[..], rest.Contents(), processing.off + processing.len;
    assert remaining.data == processing.data && remaining.off + remaining.len == end && |added| == rest.len;
    assert end + rest.len <= processing.data.Length;
    assert added == before[end..end + rest.len];
    assert processing.data[..end] == before[..end] && processing.data[end + rest.len..] == before[end + rest.len..];
    r := Append(remaining, rest);
    assert processing.data[..] == before[..end] + added + before[end + rest.len..];
    AppendingWhatFollows(before, processing.data[..], end, added);
  }

  /** Columns with widgets in them, with the weights of the first row. */
  method CollectColumns(row: LayoutRow, columns: seq<seq<(real, WidgetRule)>>) returns (uiColumns: seq<UiColumn>)
    requires |columns| == |row| && forall k :: 0 <= k < |columns| ==> columns[k] != []
    ensures |uiColumns| == |row|
    ensures forall k :: 0 <= k < |row| ==> uiColumns[k] == UiColumn(row[k].weight, columns[k])
  {
    var colWeights := WeightsOf(row);
    uiColumns := [];
    for i := 0 to |columns|
      invariant |uiColumns| == i
      invariant forall k :: 0 <= k < i ==> uiColumns[k] == UiColumn(row[k].weight, columns[k])
    {
      if |columns[i]| > 0 {
        uiColumns := uiColumns + [UiColumn(colWeights[i], columns[i])];
      }
    }
  }

  /** Eats the rows of one block off the front of a layout. It returns the block, and the rest as a
      slice of the same array, which still holds the same rows. */
  method ProcessRow(rowDefs: Slice<LayoutRow>)
    returns (maxHeight: int, uiColumns: seq<UiColumn>, rest: Slice<LayoutRow>,
             ghost used: nat, ghost partial: nat, ghost log: seq<Placement>)
    requires rowDefs.Valid() && rowDefs.len > 0 && IsLayout(rowDefs.Contents())
    modifies rowDefs.data
    ensures rowDefs.data[..] == old(rowDefs.data[..])
    ensures Packs(rowDefs.Contents(), maxHeight, used, partial, log)
    ensures uiColumns == UiColumns(rowDefs.Contents(), log, maxHeight)
    ensures 1 <= used <= rowDefs.len && rest.Valid() && rest.Contents() == rowDefs.Contents()[used..]
    ensures rest.data == rowDefs.data || fresh(rest.data)
  {
    hide IsLayout, RowHeight, MaxHeight, UiItems, Column, AllFirstFit, Positions, Stuck, Packs, Wrap;
    ghost var rows := rowDefs.Contents();
    maxHeight := CountMaxHeight([rowDefs.Contents()[0]]);
    OneRowHeight(rows[0]);
    var processing;
    processing, rest := Cut(rowDefs, maxHeight);
    assert processing.Contents() == rows[..processing.len];
    var columns, stop;
    columns, stop, partial, log := PackRows(processing.Contents(), maxHeight, rows);
    used := stop;
    PacksBounds(rows, maxHeight, used, partial, log);
    uiColumns := CollectColumns(processing.Contents()[0], columns);
    assert processing.Contents()[0] == rows[0];
    Collected(rows, log, maxHeight, columns, uiColumns);
    if stop < processing.len {
      rest := GiveBack(processing, rest, stop);
    }
  }

  lemma Collected(rows: seq<LayoutRow>, log: seq<Placement>, maxHeight: int, columns: seq<seq<(real, WidgetRule)>>,
                  uiColumns: seq<UiColumn>)
    requires rows != [] && InRows(rows, log) && maxHeight >= 1 && |columns| == |uiColumns| == |rows[0]|
    requires forall k :: 0 <= k < |columns| ==> columns[k] == UiItems(Column(rows, log, k), maxHeight)
    requires forall k :: 0 <= k < |columns| ==> uiColumns[k] == UiColumn(rows[0][k].weight, columns[k])
    ensures uiColumns == UiColumns(rows, log, maxHeight)
  {
    hide UiItems, Column;
  }

  lemma PacksBounds(rows: seq<LayoutRow>, maxHeight: int, used: nat, partial: nat, log: seq<Placement>)
    requires Packs(rows, maxHeight, used, partial, log)
    ensures rows != [] && 1 <= used <= Min(maxHeight, |rows|) && InRows(rows, log)
  {
  }

  method WeightsOf(row: LayoutRow) returns (weights: seq<real>)
    ensures weights == seq(|row|, i requires 0 <= i < |row| => row[i].weight)
  {
    weights := [];
    for i := 0 to |row|
      invariant |weights| == i && forall k :: 0 <= k < i ==> weights[k] == row[k].weight
    {
      weights := weights + [row[i].weight];
    }
  }

  lemma OneRowHeight(row: LayoutRow)
    ensures Wrap(MaxHeight([row])) == RowHeight(row)
  {
    WrapTwice(RowHeight(row), 0);
    hide Wrap, RowHeight;
  }

  // ---------------------------------------------------------------- the whole layout

  /** What one turn of the loop did: the row it started with, and what it packed. */
  datatype Turn = Turn(start: nat, height: int, used: nat, partial: nat, log: seq<Placement>)

  datatype Block = Block(height: int, columns: seq<UiColumn>)

  /** The turns of the loop: each packs what the one before has left. */
  predicate IsPlan(rows: seq<LayoutRow>, plan: seq<Turn>) {
    && (plan != [] ==> plan[0].start == 0)
    && (forall b :: 0 < b < |plan| ==> plan[b].start == plan[b - 1].start + plan[b - 1].used)
    && (forall b :: 0 <= b < |plan| ==>
          plan[b].start < |rows| &&
          Packs(rows[plan[b].start..], plan[b].height, plan[b].used, plan[b].partial, plan[b].log))
  }

  function EndOf(plan: seq<Turn>): nat {
    if plan == [] then 0 else plan[|plan| - 1].start + plan[|plan| - 1].used
  }

  function BlockOf(rows: seq<LayoutRow>, t: Turn): Block
    requires t.start < |rows| && Packs(rows[t.start..], t.height, t.used, t.partial, t.log)
  {
    Block(t.height, UiColumns(rows[t.start..], t.log, t.height))
  }

  /** What the loop has built so far. */
  ghost predicate Built(rows: seq<LayoutRow>, plan: seq<Turn>, blocks: seq<Block>, heights: seq<int>) {
    && IsPlan(rows, plan) && EndOf(plan) <= |rows|
    && |blocks| == |plan| && (forall b :: 0 <= b < |blocks| ==> blocks[b] == BlockOf(rows, plan[b]))
    && heights == Heights(plan)
  }

  lemma NothingBuilt(rows: seq<LayoutRow>)
    ensures Built(rows, [], [], []) && EndOf([]) == 0 && Sum([]) == 0 && rows[0..] == rows
  {
  }

  lemma BuiltGrows(rows: seq<LayoutRow>, plan: seq<Turn>, blocks: seq<Block>, heights: seq<int>, t: Turn)
    requires Built(rows, plan, blocks, heights) && t.start == EndOf(plan) < |rows|
    requires Packs(rows[t.start..], t.height, t.used, t.partial, t.log)
    ensures Built(rows, plan + [t], blocks + [BlockOf(rows, t)], heights + [t.height])
    ensures t.used >= 1 && EndOf(plan + [t]) <= |rows| && rows[t.start..][t.used..] == rows[EndOf(plan + [t])..]
    ensures Sum(heights + [t.height]) == Sum(heights) + t.height
  {
    PlanGrows(rows, plan, t);
    PacksBounds(rows[t.start..], t.height, t.used, t.partial, t.log);
    HeightsGrow(plan + [t], heights, t.height);
    hide Packs, UiColumns;
  }

  /** A share of the screen; a height divided by zero is infinite. */
  datatype Share = Part(of: real) | Infinite

  function ShareOf(height: int, maxHeight: int): Share {
    if maxHeight == 0 then Infinite else Part(height as real / maxHeight as real)
  }

  method RowFractions(heights: seq<int>, maxHeight: int) returns (fractions: seq<Share>)
    requires maxHeight == Wrap(Sum(heights))
    ensures fractions == Fractions(heights)
  {
    hide Wrap, Sum;
    fractions := [];
    for i := 0 to |heights|
      invariant |fractions| == i
      invariant forall k :: 0 <= k < i ==> fractions[k] == ShareOf(heights[k], maxHeight)
    {
      fractions := fractions + [ShareOf(heights[i], maxHeight)];
    }
  }

  /** Turns all rows into blocks. The loop ends, because every block uses up a row; and the array of
      the rows is as before, although blocks hand rows back by appending within it. */
  method Layout(wl: Slice<LayoutRow>) returns (blocks: seq<Block>, fractions: seq<Share>, ghost plan: seq<Turn>)
    requires wl.Valid() && IsLayout(wl.Contents())
    modifies wl.data
    ensures wl.data[..] == old(wl.data[..])
    ensures IsPlan(wl.Contents(), plan) && EndOf(plan) == wl.len
    ensures |blocks| == |fractions| == |plan|
    ensures forall b :: 0 <= b < |blocks| ==> blocks[b] == BlockOf(wl.Contents(), plan[b])
    ensures fractions == Fractions(Heights(plan))
  {
    hide IsLayout, Packs, UiColumns, Sum, EndOf, Wrap;
    ghost var rows, backing := wl.Contents(), wl.data[..];
    blocks, plan := [], [];
    var rowDefs := wl;
    var maxHeight: Int64 := 0;
    WrapTwice(0, 0);
    var heights: seq<int> := [];
    NothingBuilt(rows);
    while rowDefs.len > 0
      invariant rowDefs.Valid() && (rowDefs.data == wl.data || fresh(rowDefs.data))
      invariant wl.data[..] == backing
      invariant Built(rows, plan, blocks, heights)
      invariant EndOf(plan) <= |rows| && rowDefs.Contents() == rows[EndOf(plan)..]
      invariant maxHeight == Wrap(Sum(heights))
      decreases rowDefs.len
    {
      hide IsPlan, Built;
      ghost var start := EndOf(plan);
      RestIsLayout(rows, start);
      var h, uiRow, rest;
      ghost var used, partial, log;
      h, uiRow, rest, used, partial, log := ProcessRow(rowDefs);
      assert rest.len == |rest.Contents()| == rowDefs.len - used;
      ghost var turn := Turn(start, h, used, partial, log);
      BuiltGrows(rows, plan, blocks, heights, turn);
      plan := plan + [turn];
      WrapTwice(Sum(heights), h);
      maxHeight := Wrap(maxHeight + h);
      blocks := blocks + [Block(h, uiRow)];
      heights := heights + [h];
      rowDefs := rest;
    }
    fractions := RowFractions(heights, maxHeight);
  }

  function Heights(plan: seq<Turn>): seq<int> {
    seq(|plan|, b requires 0 <= b < |plan| => plan[b].height)
  }

  function Sum(ns: seq<int>): int {
    if ns == [] then 0 else Sum(ns[..|ns| - 1]) + ns[|ns| - 1]
  }

  /** The heights are divided by their total in 64 bits. */
  function Fractions(heights: seq<int>): seq<Share> {
    seq(|heights|, i requires 0 <= i < |heights| => ShareOf(heights[i], Wrap(Sum(heights))))
  }

  lemma RestIsLayout(rows: seq<LayoutRow>, start: nat)
    requires start <= |rows| && IsLayout(rows)
    ensures IsLayout(rows[start..])
  {
  }

  lemma PlanGrows(rows: seq<LayoutRow>, plan: seq<Turn>, t: Turn)
    requires IsPlan(rows, plan) && t.start == EndOf(plan) < |rows|
    requires Packs(rows[t.start..], t.height, t.used, t.partial, t.log)
    ensures IsPlan(rows, plan + [t]) && EndOf(plan + [t]) == t.start + t.used <= |rows|
    ensures rows[t.start..][t.used..] == rows[EndOf(plan + [t])..]
  {
    hide Packs, InRows;
    PacksBounds(rows[t.start..], t.height, t.used, t.partial, t.log);
    var longer := plan + [t];
    assert forall b :: 0 <= b < |plan| ==> longer[b] == plan[b];
  }

  lemma FrontPlan(rows: seq<LayoutRow>, plan: seq<Turn>)
    requires IsPlan(rows, plan) && plan != []
    ensures IsPlan(rows, plan[..|plan| - 1]) && EndOf(plan[..|plan| - 1]) == plan[|plan| - 1].start
  {
    hide Packs;
  }

  lemma HeightsGrow(plan: seq<Turn>, heights: seq<int>, h: int)
    requires plan != [] && plan[|plan| - 1].height == h && heights == Heights(plan[..|plan| - 1])
    ensures Heights(plan) == heights + [h] && Sum(heights + [h]) == Sum(heights) + h
  {
  }

  lemma {:induction false} SumPositive(rows: seq<LayoutRow>, plan: seq<Turn>)
    requires IsPlan(rows, plan)
    ensures Sum(Heights(plan)) >= |plan|
  {
    if plan != [] {
      var front := plan[..|plan| - 1];
      FrontPlan(rows, plan);
      SumPositive(rows, front);
      HeightsGrow(plan, Heights(front), plan[|plan| - 1].height);
    }
  }

  // ---------------------------------------------------------------- nothing is lost

  lemma {:induction false} BeforeHolds(rows: seq<LayoutRow>, row: nat, index: nat, q: nat, w: nat)
    requires row <= |rows| && (row == |rows| ==> index == 0)
    requires row < |rows| ==> index <= |rows[row]|
    ensures multiset(Before(rows, row, index))[(q, w)] ==
              if q < row && w < |rows[q]| then 1 else if q == row && w < index then 1 else 0
    decreases row, index
  {
    if index > 0 {
      BeforeHolds(rows, row, index - 1, q, w);
    } else if row > 0 {
      BeforeHolds(rows, row - 1, |rows[row - 1]|, q, w);
    }
  }

  /** How often a turn has placed the widget at a position of the whole layout. */
  ghost function TimesIn(t: Turn, row: nat, index: nat): nat {
    if row < t.start then 0 else multiset(Positions(t.log))[(row - t.start, index)]
  }

  ghost function TimesPlaced(plan: seq<Turn>, row: nat, index: nat): nat {
    if plan == [] then 0
    else TimesPlaced(plan[..|plan| - 1], row, index) + TimesIn(plan[|plan| - 1], row, index)
  }

  lemma PacksInOrder(rows: seq<LayoutRow>, maxHeight: int, used: nat, partial: nat, log: seq<Placement>)
    requires Packs(rows, maxHeight, used, partial, log)
    ensures used <= |rows| && (used == |rows| ==> partial == 0)
    ensures used < |rows| && partial > 0 ==> partial < |rows[used]|
    ensures Positions(log) == Before(rows, used, partial)
  {
    hide AllFirstFit, InRows, Stuck, Before, Positions, RowHeight;
  }

  lemma BlockPlaces(rows: seq<LayoutRow>, maxHeight: int, used: nat, partial: nat, log: seq<Placement>, q: nat, w: nat)
    requires Packs(rows, maxHeight, used, partial, log) && q < |rows| && w < |rows[q]|
    ensures multiset(Positions(log))[(q, w)] == if q < used || (q == used && w < partial) then 1 else 0
  {
    PacksInOrder(rows, maxHeight, used, partial, log);
    hide Packs, Positions, Before;
    BeforeHolds(rows, used, partial, q, w);
  }

  lemma TurnPlaces(rows: seq<LayoutRow>, t: Turn, row: nat, index: nat)
    requires t.start < |rows| && Packs(rows[t.start..], t.height, t.used, t.partial, t.log)
    requires row < |rows| && index < |rows[row]|
    ensures TimesIn(t, row, index) ==
              if t.start <= row < t.start + t.used then 1
              else if row == t.start + t.used && index < t.partial then 1
              else 0
  {
    hide Packs, Positions;
    if t.start <= row {
      assert rows[t.start..][row - t.start] == rows[row];
      BlockPlaces(rows[t.start..], t.height, t.used, t.partial, t.log, row - t.start, index);
    }
  }

  /** Was the row left to a later turn by one that had already placed its first widgets up to and
      including this one? */
  ghost predicate HandedBack(plan: seq<Turn>, row: nat, index: nat) {
    exists b :: 0 <= b < |plan| && row == plan[b].start + plan[b].used && index < plan[b].partial
  }

  lemma HandedBackByOneMore(plan: seq<Turn>, row: nat, index: nat)
    requires plan != []
    ensures var front, last := plan[..|plan| - 1], plan[|plan| - 1];
            HandedBack(plan, row, index) <==>
              HandedBack(front, row, index) || (row == last.start + last.used && index < last.partial)
  {
    var front := plan[..|plan| - 1];
    assert forall b :: 0 <= b < |front| ==> front[b] == plan[b];
  }

  lemma {:induction false} PlacedSoFar(rows: seq<LayoutRow>, plan: seq<Turn>, row: nat, index: nat)
    requires IsPlan(rows, plan) && row < |rows| && index < |rows[row]|
    ensures TimesPlaced(plan, row, index) ==
              (if row < EndOf(plan) then 1 else 0) + (if HandedBack(plan, row, index) then 1 else 0)
    ensures HandedBack(plan, row, index) ==> row <= EndOf(plan)
  {
    hide Packs, TimesIn, InRows, HandedBack;
    if plan == [] {
      NeverHandedBack(row, index);
    } else {
      var front, last := plan[..|plan| - 1], plan[|plan| - 1];
      FrontPlan(rows, plan);
      PlacedSoFar(rows, front, row, index);
      TurnPlaces(rows, last, row, index);
      PacksBounds(rows[last.start..], last.height, last.used, last.partial, last.log);
      HandedBackByOneMore(plan, row, index);
      hide IsPlan;
    }
  }

  lemma NeverHandedBack(row: nat, index: nat)
    ensures !HandedBack([], row, index)
  {
  }

  /** Every widget of the layout is placed at least once and at most twice; twice exactly when it
      belongs to the part of a row, never the whole, that a block had placed when it gave the row back. */
  lemma NothingLost(rows: seq<LayoutRow>, plan: seq<Turn>, row: nat, index: nat)
    requires IsPlan(rows, plan) && EndOf(plan) == |rows| && row < |rows| && index < |rows[row]|
    ensures TimesPlaced(plan, row, index) == if HandedBack(plan, row, index) then 2 else 1
    ensures HandedBack(plan, row, index) ==> !HandedBack(plan, row, |rows[row]| - 1)
  {
    hide Packs;
    PlacedSoFar(rows, plan, row, index);
    forall b | 0 <= b < |plan| && row == plan[b].start + plan[b].used
      ensures plan[b].partial < |rows[row]|
    {
      var t := plan[b];
      PacksInOrder(rows[t.start..], t.height, t.used, t.partial, t.log);
      assert rows[t.start..][t.used] == rows[row];
    }
    hide IsPlan, TimesPlaced;
  }

  /** No row can be handed back in part: it has one widget, or no row before it is more than one high. */
  predicate Unbreakable(rows: seq<LayoutRow>) {
    forall q, r :: 0 <= q < r < |rows| ==> |rows[r]| == 1 || RowHeight(rows[q]) == 1
  }

  lemma InPartIsWide(rows: seq<LayoutRow>, t: Turn)
    requires t.start < |rows| && Packs(rows[t.start..], t.height, t.used, t.partial, t.log) && t.partial > 0
    ensures t.used >= 1 && t.start + t.used < |rows|
    ensures |rows[t.start + t.used]| >= 2 && RowHeight(rows[t.start]) >= 2
  {
    hide InRows, AllFirstFit, Stuck, Positions, Before, RowHeight;
    assert rows[t.start..][0] == rows[t.start];
    assert rows[t.start..][t.used] == rows[t.start + t.used];
  }

  lemma NeverInPart(rows: seq<LayoutRow>, plan: seq<Turn>, b: nat)
    requires IsPlan(rows, plan) && b < |plan| && Unbreakable(rows)
    ensures plan[b].partial == 0
  {
    hide Packs, RowHeight;
    if plan[b].partial > 0 {
      InPartIsWide(rows, plan[b]);
    }
  }

  /** In layouts of rows that cannot be handed back in part, as of single widgets or without spans, each
      widget is placed once. */
  lemma EachPlacedOnce(rows: seq<LayoutRow>, plan: seq<Turn>, row: nat, index: nat)
    requires IsPlan(rows, plan) && EndOf(plan) == |rows| && row < |rows| && index < |rows[row]|
    requires Unbreakable(rows)
    ensures TimesPlaced(plan, row, index) == 1
  {
    NothingLost(rows, plan, row, index);
    forall b | 0 <= b < |plan|
      ensures plan[b].partial == 0
    {
      NeverInPart(rows, plan, b);
    }
    hide IsPlan, TimesPlaced, Unbreakable;
  }

  // ---------------------------------------------------------------- the rows decide

  /** A position stands in the reading order right behind those before it. */
  lemma {:induction false} BeforeAt(rows: seq<LayoutRow>, row: nat, index: nat, q: nat, w: nat)
    requires row <= |rows| && (row == |rows| ==> index == 0)
    requires row < |rows| ==> index <= |rows[row]|
    requires q < |rows| && w < |rows[q]| && (q < row || (q == row && w < index))
    ensures var n := |Before(rows, q, w)|;
            && n < |Before(rows, row, index)|
            && Before(rows, row, index)[..n] == Before(rows, q, w) && Before(rows, row, index)[n] == (q, w)
    decreases row, index
  {
    if index > 0 {
      if q < row || w < index - 1 {
        BeforeAt(rows, row, index - 1, q, w);
      }
    } else {
      BeforeAt(rows, row - 1, |rows[row - 1]|, q, w);
    }
  }

  lemma SameColumn(rows: seq<LayoutRow>, numCols: nat, maxHeight: int, log: seq<Placement>, p: Placement, q: Placement)
    requires InRows(rows, log) && p.row == q.row < |rows| && p.index == q.index < |rows[p.row]|
    requires FirstFit(rows, numCols, maxHeight, log, p) && FirstFit(rows, numCols, maxHeight, log, q)
    ensures p == q
  {
    hide Fits;
  }

  /** The positions leave first-fit no choice of columns. */
  lemma {:induction false} SamePlacements(rows: seq<LayoutRow>, numCols: nat, maxHeight: int, log: seq<Placement>,
                                          other: seq<Placement>)
    requires InRows(rows, log) && AllFirstFit(rows, numCols, maxHeight, log)
    requires InRows(rows, other) && AllFirstFit(rows, numCols, maxHeight, other)
    requires Positions(log) == Positions(other)
    ensures log == other
  {
    hide FirstFit, AllFirstFit, Positions;
    PositionsOf(log);
    PositionsOf(other);
    if log != [] {
      var n := |log| - 1;
      FirstFitFront(rows, numCols, maxHeight, log, n);
      FirstFitFront(rows, numCols, maxHeight, other, n);
      SamePlacements(rows, numCols, maxHeight, log[..n], other[..n]);
      SameColumn(rows, numCols, maxHeight, log[..n], log[n], other[n]);
      assert log == log[..n] + [log[n]] && other == other[..n] + [other[n]];
    }
  }

  lemma PositionsOf(log: seq<Placement>)
    ensures |Positions(log)| == |log|
    ensures log != [] ==>
              var n := |log| - 1;
              Positions(log[..n]) == Positions(log)[..n] && Positions(log)[n] == (log[n].row, log[n].index)
  {
  }

  lemma FirstFitFront(rows: seq<LayoutRow>, numCols: nat, maxHeight: int, log: seq<Placement>, n: nat)
    requires InRows(rows, log) && AllFirstFit(rows, numCols, maxHeight, log) && n <= |log|
    ensures InRows(rows, log[..n]) && AllFirstFit(rows, numCols, maxHeight, log[..n])
    ensures n < |log| ==> FirstFit(rows, numCols, maxHeight, log[..n], log[n])
  {
    hide FirstFit;
    forall t | 0 <= t < n
      ensures FirstFit(rows, numCols, maxHeight, log[..n][..t], log[..n][t])
    {
      assert log[..n][..t] == log[..t];
    }
  }

  /** A block does not stop short of where it could go on. */
  lemma NotShorter(rows: seq<LayoutRow>, maxHeight: int, used: nat, partial: nat, log: seq<Placement>,
                   more: nat, part: nat, longer: seq<Placement>)
    requires Packs(rows, maxHeight, used, partial, log) && Packs(rows, maxHeight, more, part, longer)
    ensures !(used < more || (used == more && partial < part))
  {
    PacksInOrder(rows, maxHeight, used, partial, log);
    PacksInOrder(rows, maxHeight, more, part, longer);
    if used < more || (used == more && partial < part) {
      hide AllFirstFit, Stuck, InRows, Positions, RowHeight, Before;
      assert partial < |rows[used]| && Stuck(rows, |rows[0]|, maxHeight, log, used, partial);
      BeforeAt(rows, more, part, used, partial);
      PlacedWhereStuck(rows, |rows[0]|, maxHeight, log, longer, used, partial);
      assert false;
    }
  }

  lemma PlacedWhereStuck(rows: seq<LayoutRow>, numCols: nat, maxHeight: int, log: seq<Placement>,
                         longer: seq<Placement>, row: nat, index: nat)
    requires InRows(rows, log) && AllFirstFit(rows, numCols, maxHeight, log)
    requires InRows(rows, longer) && AllFirstFit(rows, numCols, maxHeight, longer)
    requires row < |rows| && index < |rows[row]|
    requires var n := |Positions(log)|;
             n < |Positions(longer)| && Positions(longer)[..n] == Positions(log) && Positions(longer)[n] == (row, index)
    ensures !Stuck(rows, numCols, maxHeight, log, row, index)
  {
    var n := |log|;
    assert n == |Positions(log)| && Positions(longer[..n]) == Positions(longer)[..n];
    assert longer[n].row == row && longer[n].index == index;
    FirstFitFront(rows, numCols, maxHeight, longer, n);
    hide AllFirstFit, Positions, Fits;
    SamePlacements(rows, numCols, maxHeight, log, longer[..n]);
  }

  /** What a block does is determined by the rows it starts with. */
  lemma PacksUnique(rows: seq<LayoutRow>, t: Turn, u: Turn)
    requires t.start == u.start && Packs(rows, t.height, t.used, t.partial, t.log)
    requires Packs(rows, u.height, u.used, u.partial, u.log)
    ensures t == u
  {
    assert t.height == u.height;
    NotShorter(rows, t.height, t.used, t.partial, t.log, u.used, u.partial, u.log);
    NotShorter(rows, t.height, u.used, u.partial, u.log, t.used, t.partial, t.log);
    hide AllFirstFit, Stuck, InRows, Positions, RowHeight, Before;
    SamePlacements(rows, |rows[0]|, t.height, t.log, u.log);
  }

  lemma {:induction false} SameTurns(rows: seq<LayoutRow>, plan: seq<Turn>, other: seq<Turn>, b: nat)
    requires IsPlan(rows, plan) && IsPlan(rows, other) && b < |plan| && b < |other|
    ensures plan[b] == other[b]
  {
    hide Packs;
    if b > 0 {
      SameTurns(rows, plan, other, b - 1);
    }
    assert plan[b].start == other[b].start;
    PacksUnique(rows[plan[b].start..], plan[b], other[b]);
  }

  /** There is only one way to pack a layout: what is said of any complete plan is said of the packer's. */
  lemma PlanUnique(rows: seq<LayoutRow>, plan: seq<Turn>, other: seq<Turn>)
    requires IsPlan(rows, plan) && EndOf(plan) == |rows| && IsPlan(rows, other) && EndOf(other) == |rows|
    ensures plan == other
  {
    NoLonger(rows, plan, other);
    NoLonger(rows, other, plan);
    forall b | 0 <= b < |plan|
      ensures plan[b] == other[b]
    {
      SameTurns(rows, plan, other, b);
    }
  }

  lemma NoLonger(rows: seq<LayoutRow>, plan: seq<Turn>, other: seq<Turn>)
    requires IsPlan(rows, plan) && EndOf(plan) == |rows| && IsPlan(rows, other)
    ensures |other| <= |plan|
  {
    hide Packs, IsPlan, EndOf;
    if |other| > |plan| {
      GoesOn(rows, plan, other);
    }
  }

  lemma GoesOn(rows: seq<LayoutRow>, plan: seq<Turn>, longer: seq<Turn>)
    requires IsPlan(rows, plan) && IsPlan(rows, longer) && |longer| > |plan|
    ensures EndOf(plan) < |rows|
  {
    hide Packs;
    if plan != [] {
      SameTurns(rows, plan, longer, |plan| - 1);
    }
    assert longer[|plan|].start == EndOf(plan);
  }

  const TALL := WidgetRule("cpu", 0.5, 2)
  const LOW := WidgetRule("mem", 0.5, 1)

  lemma TwoTurns(rows: seq<LayoutRow>, t: Turn, u: Turn)
    requires |rows| == 2 && t.start == 0 && t.used == 1 && u.start == 1 && u.used == 1
    requires Packs(rows, t.height, t.used, t.partial, t.log) && Packs(rows[1..], u.height, u.used, u.partial, u.log)
    ensures IsPlan(rows, [t, u]) && EndOf([t, u]) == 2
    ensures t.partial > 0 ==> HandedBack([t, u], 1, 0)
  {
    hide Packs;
    var plan := [t, u];
    assert rows[0..] == rows;
    assert plan[0] == t && plan[1] == u;
  }

  /** It does happen: in this layout of two rows the first block has room for one widget of the second
      row only, and the second block then places it again. */
  lemma SomeWidgetsAppearTwice()
    ensures var rows := [[TALL, LOW], [LOW, LOW]];
            && (exists plan :: IsPlan(rows, plan) && EndOf(plan) == |rows|)
            && (forall plan :: IsPlan(rows, plan) && EndOf(plan) == |rows| ==> TimesPlaced(plan, 1, 0) == 2)
  {
    hide Packs, IsPlan, EndOf, HandedBack, TimesPlaced;
    var rows := [[TALL, LOW], [LOW, LOW]];
    var t := Turn(0, 2, 1, 1, [Placement(0, 0, 0), Placement(0, 1, 1), Placement(1, 0, 1)]);
    var u := Turn(1, 1, 1, 0, [Placement(0, 0, 0), Placement(0, 1, 1)]);
    FirstBlockOfExample();
    SecondBlockOfExample();
    assert rows[1..] == [[LOW, LOW]];
    TwoTurns(rows, t, u);
    NothingLost(rows, [t, u], 1, 0);
    forall plan | IsPlan(rows, plan) && EndOf(plan) == |rows|
      ensures plan == [t, u]
    {
      PlanUnique(rows, plan, [t, u]);
    }
  }

  lemma HeightAfter(rows: seq<LayoutRow>, log: seq<Placement>, p: Placement, k: nat)
    requires InRows(rows, log) && p.row < |rows| && p.index < |rows[p.row]|
    ensures InRows(rows, log + [p])
    ensures TotalHeight(Column(rows, log + [p], k)) ==
              TotalHeight(Column(rows, log, k)) + if p.col == k then rows[p.row][p.index].height else 0
  {
    hide Column, TotalHeight, UiItems;
    PlaceOne(rows, log, p, k);
    var column := Column(rows, log, k);
    if p.col == k {
      AddToColumn(column, rows[p.row][p.index], 1);
    } else {
      assert column + [] == column;
    }
  }

  /** The heights of the columns after each step of the first block of the example. */
  lemma ColumnsOfExample(rows: seq<LayoutRow>, log: seq<Placement>, k: nat)
    requires rows == [[TALL, LOW], [LOW, LOW]] && log == [Placement(0, 0, 0), Placement(0, 1, 1), Placement(1, 0, 1)]
    ensures InRows(rows, log)
    ensures TotalHeight(Column(rows, log[..0], k)) == 0
    ensures TotalHeight(Column(rows, log[..1], k)) == if k == 0 then 2 else 0
    ensures TotalHeight(Column(rows, log[..2], k)) == if k == 0 then 2 else if k == 1 then 1 else 0
    ensures TotalHeight(Column(rows, log, k)) == if k == 0 then 2 else if k == 1 then 2 else 0
  {
    EmptyColumn();
    assert Column(rows, [], k) == [];
    hide Column, TotalHeight;
    assert log[..0] == [] && log[..1] == log[..0] + [log[0]];
    HeightAfter(rows, log[..0], log[0], k);
    assert log[..2] == log[..1] + [log[1]];
    HeightAfter(rows, log[..1], log[1], k);
    assert log == log[..2] + [log[2]];
    HeightAfter(rows, log[..2], log[2], k);
  }

  lemma SmallHeights()
    ensures forall n :: 0 <= n <= 10 ==> Wrap(n) == n
  {
  }

  lemma FirstFitsOfExample(rows: seq<LayoutRow>, log: seq<Placement>)
    requires rows == [[TALL, LOW], [LOW, LOW]] && log == [Placement(0, 0, 0), Placement(0, 1, 1), Placement(1, 0, 1)]
    ensures InRows(rows, log) && AllFirstFit(rows, 2, 2, log) && Stuck(rows, 2, 2, log, 1, 1)
  {
    hide Column, TotalHeight;
    SmallHeights();
    hide Wrap;
    forall k: nat
      ensures TotalHeight(Column(rows, log[..0], k)) == 0
      ensures TotalHeight(Column(rows, log[..1], k)) == if k == 0 then 2 else 0
      ensures TotalHeight(Column(rows, log[..2], k)) == if k == 0 then 2 else if k == 1 then 1 else 0
      ensures TotalHeight(Column(rows, log, k)) == if k == 0 then 2 else if k == 1 then 2 else 0
    {
      ColumnsOfExample(rows, log, k);
    }
    assert FirstFit(rows, 2, 2, log[..0], log[0]);
    assert FirstFit(rows, 2, 2, log[..1], log[1]);
    assert FirstFit(rows, 2, 2, log[..2], log[2]);
    assert Stuck(rows, 2, 2, log, 1, 1);
    assert AllFirstFit(rows, 2, 2, log) by {
      hide FirstFit, Stuck;
    }
  }

  lemma FirstBlockOfExample()
    ensures Packs([[TALL, LOW], [LOW, LOW]], 2, 1, 1, [Placement(0, 0, 0), Placement(0, 1, 1), Placement(1, 0, 1)])
  {
    var rows := [[TALL, LOW], [LOW, LOW]];
    var log := [Placement(0, 0, 0), Placement(0, 1, 1), Placement(1, 0, 1)];
    assert Before(rows, 1, 1) == [(0, 0), (0, 1), (1, 0)] == Positions(log);
    assert RowHeight(rows[0]) == 2;
    hide Before, Positions, RowHeight, AllFirstFit, Stuck;
    FirstFitsOfExample(rows, log);
  }

  lemma SecondBlockOfExample()
    ensures Packs([[LOW, LOW]], 1, 1, 0, [Placement(0, 0, 0), Placement(0, 1, 1)])
  {
    var rows := [[LOW, LOW]];
    var p, q := Placement(0, 0, 0), Placement(0, 1, 1);
    assert Before(rows, 1, 0) == [(0, 0), (0, 1)];
    EmptyColumn();
    assert forall k: nat :: Column(rows, [], k) == [];
    hide Column, TotalHeight, Before;
    forall k: nat
      ensures TotalHeight(Column(rows, [p], k)) == if k == 0 then 1 else 0
    {
      HeightAfter(rows, [], p, k);
      assert [] + [p] == [p];
    }
    var log := [p, q];
    assert log[..0] == [] && log[..1] == [p];
    assert FirstFit(rows, 2, 1, log[..0], log[0]);
    assert FirstFit(rows, 2, 1, log[..1], log[1]);
    hide FirstFit;
    assert AllFirstFit(rows, 2, 1, log);
    assert Positions(log) == [(0, 0), (0, 1)];
  }

  // ---------------------------------------------------------------- inside a block

  lemma {:induction false} HeightsCount(rows: seq<LayoutRow>, log: seq<Placement>, k: nat)
    requires InRows(rows, log) && IsLayout(rows)
    ensures TotalHeight(Column(rows, log, k)) >= 0
  {
    hide IsLayout;
    if log != [] {
      var front, last := log[..|log| - 1], log[|log| - 1];
      HeightsCount(rows, front, k);
      HeightAfter(rows, front, last, k);
      assert log == front + [last];
      AtLeastOneHigh(rows, last);
    }
  }

  lemma AtLeastOneHigh(rows: seq<LayoutRow>, p: Placement)
    requires IsLayout(rows) && p.row < |rows| && p.index < |rows[p.row]|
    ensures rows[p.row][p.index].height >= 1
  {
  }

  /** A column whose heights add up in 64 bits is no higher than the block. */
  lemma {:induction false} ColumnWithin(rows: seq<LayoutRow>, numCols: nat, maxHeight: int, log: seq<Placement>, k: nat)
    requires InRows(rows, log) && AllFirstFit(rows, numCols, maxHeight, log) && maxHeight >= 0 && IsLayout(rows)
    requires TotalHeight(Column(rows, log, k)) <= MAX_INT
    ensures TotalHeight(Column(rows, log, k)) <= maxHeight
  {
    hide IsLayout, AllFirstFit, Column, TotalHeight, Wrap;
    HeightsCount(rows, log, k);
    if log == [] {
      EmptyLog(rows, k);
    } else {
      var n := |log| - 1;
      FirstFitFront(rows, numCols, maxHeight, log, n);
      assert log == log[..n] + [log[n]];
      HeightAfter(rows, log[..n], log[n], k);
      if log[n].col == k {
        WrapTwice(TotalHeight(Column(rows, log, k)), 0);
      } else {
        ColumnWithin(rows, numCols, maxHeight, log[..n], k);
      }
    }
  }

  lemma EmptyLog(rows: seq<LayoutRow>, k: nat)
    ensures TotalHeight(Column(rows, [], k)) == 0
  {
  }

  /** No widget is so high that its height and the block's do not add up in 64 bits. */
  predicate AddUp(rows: seq<LayoutRow>, maxHeight: int) {
    forall q, w :: 0 <= q < |rows| && 0 <= w < |rows[q]| ==> maxHeight + rows[q][w].height <= MAX_INT
  }

  /** Then there is room for a widget exactly where its height and those above it fit the block, ... */
  lemma FitsTruly(rows: seq<LayoutRow>, numCols: nat, maxHeight: int, log: seq<Placement>, k: nat, row: nat, index: nat)
    requires InRows(rows, log) && AllFirstFit(rows, numCols, maxHeight, log) && maxHeight >= 0 && IsLayout(rows)
    requires AddUp(rows, maxHeight) && row < |rows| && index < |rows[row]|
    ensures Fits(rows, log, k, rows[row][index].height, maxHeight)
       <==> TotalHeight(Column(rows, log, k)) + rows[row][index].height <= maxHeight
  {
    hide AllFirstFit, Column, TotalHeight, Wrap;
    HeightsCount(rows, log, k);
    LowColumnWithin(rows, numCols, maxHeight, log, k);
    WrapTwice(TotalHeight(Column(rows, log, k)) + rows[row][index].height, 0);
  }

  /** ... and no column is higher than the block. */
  lemma {:induction false} LowColumnWithin(rows: seq<LayoutRow>, numCols: nat, maxHeight: int, log: seq<Placement>, k: nat)
    requires InRows(rows, log) && AllFirstFit(rows, numCols, maxHeight, log) && maxHeight >= 0 && IsLayout(rows)
    requires AddUp(rows, maxHeight)
    ensures TotalHeight(Column(rows, log, k)) <= maxHeight
  {
    hide IsLayout, AllFirstFit, Column, TotalHeight, Wrap;
    if log == [] {
      EmptyLog(rows, k);
    } else {
      var n := |log| - 1;
      FirstFitFront(rows, numCols, maxHeight, log, n);
      LowColumnWithin(rows, numCols, maxHeight, log[..n], k);
      assert log == log[..n] + [log[n]];
      HeightAfter(rows, log[..n], log[n], k);
      if log[n].col == k {
        assert maxHeight + rows[log[n].row][log[n].index].height <= MAX_INT;
        ColumnWithin(rows, numCols, maxHeight, log, k);
      }
    }
  }

  /** A widget is in the leftmost column, from its place in its row on, in which it is no higher than what was
      left there, and the block is closed early only in front of one that is higher everywhere. */
  lemma LeftmostWithRoom(rows: seq<LayoutRow>, maxHeight: int, used: nat, partial: nat, log: seq<Placement>, t: nat)
    requires IsLayout(rows) && Packs(rows, maxHeight, used, partial, log) && AddUp(rows, maxHeight) && t < |log|
    ensures var p := log[t];
            var height := rows[p.row][p.index].height;
            && p.index <= p.col < |rows[0]|
            && height <= maxHeight - TotalHeight(Column(rows, log[..t], p.col))
            && forall k :: p.index <= k < p.col ==> height > maxHeight - TotalHeight(Column(rows, log[..t], k))
    ensures used < Min(maxHeight, |rows|) ==>
              forall k :: partial <= k < |rows[0]| ==>
                            rows[used][partial].height > maxHeight - TotalHeight(Column(rows, log, k))
  {
    var numCols, p := |rows[0]|, log[t];
    FirstFitFront(rows, numCols, maxHeight, log, t);
    assert FirstFit(rows, numCols, maxHeight, log[..t], p);
    hide AllFirstFit, Column, TotalHeight, Before, IsLayout, RowHeight;
    forall k: nat
      ensures Fits(rows, log[..t], k, rows[p.row][p.index].height, maxHeight)
         <==> TotalHeight(Column(rows, log[..t], k)) + rows[p.row][p.index].height <= maxHeight
    {
      FitsTruly(rows, numCols, maxHeight, log[..t], k, p.row, p.index);
    }
    if used < Min(maxHeight, |rows|) {
      forall k: nat
        ensures Fits(rows, log, k, rows[used][partial].height, maxHeight)
           <==> TotalHeight(Column(rows, log, k)) + rows[used][partial].height <= maxHeight
      {
        FitsTruly(rows, numCols, maxHeight, log, k, used, partial);
      }
    }
    hide Fits;
  }

  /** How many of the first t placements went to a column. */
  function PlacedIn(log: seq<Placement>, t: nat, k: nat): nat
    requires t <= |log|
  {
    if t == 0 then 0 else PlacedIn(log, t - 1, k) + if log[t - 1].col == k then 1 else 0
  }

  lemma {:induction false} PlacedInFront(log: seq<Placement>, n: nat, t: nat, k: nat)
    requires t <= n <= |log|
    ensures PlacedIn(log[..n], t, k) == PlacedIn(log, t, k)
  {
    if t > 0 {
      PlacedInFront(log, n, t - 1, k);
    }
  }

  /** A column keeps the reading order: a widget is below exactly those that were placed in its column before. */
  lemma {:induction false} ColumnInOrder(rows: seq<LayoutRow>, log: seq<Placement>, t: nat)
    requires InRows(rows, log) && t < |log|
    ensures var k := log[t].col;
            var j := PlacedIn(log, t, k);
            j < |Column(rows, log, k)| && Column(rows, log, k)[j] == rows[log[t].row][log[t].index]
  {
    var n, k := |log| - 1, log[t].col;
    if t < n {
      ColumnInOrder(rows, log[..n], t);
      PlacedInFront(log, n, t, k);
    } else {
      ColumnLength(rows, log[..n], k);
      PlacedInFront(log, n, n, k);
    }
    hide PlacedIn;
  }

  lemma {:induction false} ColumnLength(rows: seq<LayoutRow>, log: seq<Placement>, k: nat)
    requires InRows(rows, log)
    ensures |Column(rows, log, k)| == PlacedIn(log, |log|, k)
  {
    if log != [] {
      ColumnLength(rows, log[..|log| - 1], k);
      PlacedInFront(log, |log| - 1, |log| - 1, k);
    }
  }

  lemma {:induction false} ColumnReached(rows: seq<LayoutRow>, log: seq<Placement>, t: nat)
    requires InRows(rows, log) && t < |log|
    ensures Column(rows, log, log[t].col) != []
  {
    if t < |log| - 1 {
      ColumnReached(rows, log[..|log| - 1], t);
    }
  }

  lemma {:induction false} ColumnUntouched(rows: seq<LayoutRow>, log: seq<Placement>, k: nat)
    requires InRows(rows, log) && forall t :: 0 <= t < |log| ==> log[t].col != k
    ensures Column(rows, log, k) == []
  {
    if log != [] {
      ColumnUntouched(rows, log[..|log| - 1], k);
    }
  }

  lemma {:induction false} BeforeStartsWithFirstRow(rows: seq<LayoutRow>, row: nat, index: nat, t: nat)
    requires 1 <= row <= |rows| && (row == |rows| ==> index == 0)
    requires row < |rows| ==> index <= |rows[row]|
    requires t < |rows[0]|
    ensures |Before(rows, row, index)| >= |rows[0]| && Before(rows, row, index)[t] == (0, t)
    decreases row, index
  {
    if index > 0 {
      BeforeStartsWithFirstRow(rows, row, index - 1, t);
    } else if row > 1 {
      BeforeStartsWithFirstRow(rows, row - 1, |rows[row - 1]|, t);
    } else {
      FirstRowPositions(rows, |rows[0]|, t);
    }
  }

  lemma {:induction false} FirstRowPositions(rows: seq<LayoutRow>, index: nat, t: nat)
    requires rows != [] && t < index <= |rows[0]|
    ensures |Before(rows, 0, index)| == index && Before(rows, 0, index)[t] == (0, t)
  {
    if index > t + 1 {
      FirstRowPositions(rows, index - 1, t);
    } else if t > 0 {
      FirstRowPositions(rows, index - 1, t - 1);
    }
  }

  /** The widgets of the first row have a column each. */
  lemma {:induction false} FirstRowInPlace(rows: seq<LayoutRow>, maxHeight: int, used: nat, partial: nat,
                                           log: seq<Placement>, t: nat)
    requires Packs(rows, maxHeight, used, partial, log) && t < |rows[0]|
    ensures t < |log| && log[t] == Placement(0, t, t)
  {
    BeforeStartsWithFirstRow(rows, used, partial, t);
    assert Positions(log)[t] == (0, t);
    forall s | 0 <= s < t
      ensures log[s] == Placement(0, s, s)
    {
      FirstRowInPlace(rows, maxHeight, used, partial, log, s);
    }
    ColumnUntouched(rows, log[..t], t);
    EmptyColumn();
    TallEnough(rows[0], t);
    assert FirstFit(rows, |rows[0]|, maxHeight, log[..t], log[t]);
    hide Before, AllFirstFit, Positions, Stuck, RowHeight, Column, TotalHeight;
    assert Fits(rows, log[..t], t, rows[0][t].height, maxHeight);
  }

  /** In every block, no column is empty, and one is no higher than the block exactly if its heights add
      up in 64 bits. */
  lemma ColumnsFitTheBlock(rows: seq<LayoutRow>, maxHeight: int, used: nat, partial: nat, log: seq<Placement>, k: nat)
    requires Packs(rows, maxHeight, used, partial, log) && IsLayout(rows) && k < |rows[0]|
    ensures Column(rows, log, k) != []
    ensures TotalHeight(Column(rows, log, k)) <= maxHeight <==> TotalHeight(Column(rows, log, k)) <= MAX_INT
    ensures AddUp(rows, maxHeight) ==> TotalHeight(Column(rows, log, k)) <= maxHeight
  {
    FirstRowInPlace(rows, maxHeight, used, partial, log, k);
    ColumnReached(rows, log, k);
    hide Column, TotalHeight, IsLayout, AddUp, AllFirstFit, Positions, Before, Stuck, RowHeight;
    if AddUp(rows, maxHeight) {
      LowColumnWithin(rows, |rows[0]|, maxHeight, log, k);
    }
    if TotalHeight(Column(rows, log, k)) <= MAX_INT {
      ColumnWithin(rows, |rows[0]|, maxHeight, log, k);
    }
  }

  /** Heights of up to half the largest number add up. */
  lemma HalvesAddUp(rows: seq<LayoutRow>)
    requires rows != [] && forall q, w :: 0 <= q < |rows| && 0 <= w < |rows[q]| ==> rows[q][w].height <= MAX_INT / 2
    ensures AddUp(rows, RowHeight(rows[0]))
  {
    hide RowHeight;
    assert RowHeight(rows[0]) <= MAX_INT / 2;
  }

  // ---------------------------------------------------------------- shares

  function SumReals(rs: seq<real>): real {
    if rs == [] then 0.0 else SumReals(rs[..|rs| - 1]) + rs[|rs| - 1]
  }

  lemma {:induction false} SharesOf(ns: seq<int>, total: int)
    requires total != 0
    ensures SumReals(seq(|ns|, i requires 0 <= i < |ns| => ns[i] as real / total as real)) == Sum(ns) as real / total as real
  {
    var shares := seq(|ns|, i requires 0 <= i < |ns| => ns[i] as real / total as real);
    if ns != [] {
      var front := ns[..|ns| - 1];
      SharesOf(front, total);
      assert shares[..|ns| - 1] == seq(|front|, i requires 0 <= i < |front| => front[i] as real / total as real);
    }
  }

  function ItemShares(items: seq<(real, WidgetRule)>): seq<real> {
    seq(|items|, i requires 0 <= i < |items| => items[i].0)
  }

  /** The widgets of a column take up their heights' share of the block. */
  lemma {:induction false} ColumnShares(widgets: seq<WidgetRule>, maxHeight: int)
    requires maxHeight >= 1
    ensures SumReals(ItemShares(UiItems(widgets, maxHeight))) == TotalHeight(widgets) as real / maxHeight as real
    ensures forall i :: 0 <= i < |widgets| ==>
              UiItems(widgets, maxHeight)[i].1 == widgets[i] &&
              UiItems(widgets, maxHeight)[i].0 * maxHeight as real == widgets[i].height as real
  {
    forall i | 0 <= i < |widgets|
      ensures UiItems(widgets, maxHeight)[i].0 * maxHeight as real == widgets[i].height as real
    {
      ShareTimesTotal(widgets[i].height, maxHeight);
    }
    SharesAddUp(widgets, maxHeight);
  }

  lemma ShareTimesTotal(n: int, d: int)
    requires d != 0
    ensures n as real / d as real * d as real == n as real
  {
  }

  lemma {:induction false} SharesAddUp(widgets: seq<WidgetRule>, maxHeight: int)
    requires maxHeight >= 1
    ensures SumReals(ItemShares(UiItems(widgets, maxHeight))) == TotalHeight(widgets) as real / maxHeight as real
  {
    if widgets != [] {
      var n := |widgets| - 1;
      SharesAddUp(widgets[..n], maxHeight);
      var shares := ItemShares(UiItems(widgets, maxHeight));
      assert shares[..n] == ItemShares(UiItems(widgets[..n], maxHeight));
      AddShares(TotalHeight(widgets[..n]), widgets[n].height, maxHeight);
    }
  }

  lemma AddShares(m: int, n: int, d: int)
    requires d != 0
    ensures m as real / d as real + n as real / d as real == (m + n) as real / d as real
  {
  }

  function PartsOf(shares: seq<Share>): seq<real>
    requires forall i :: 0 <= i < |shares| ==> shares[i].Part?
  {
    seq(|shares|, i requires 0 <= i < |shares| => shares[i].of)
  }

  predicate MakeOne(shares: seq<Share>) {
    (forall i :: 0 <= i < |shares| ==> shares[i].Part?) && SumReals(PartsOf(shares)) == 1.0
  }

  /** The blocks share out the height of the screen exactly if their heights add up in 64 bits. */
  lemma BlocksFillTheScreen(rows: seq<LayoutRow>, plan: seq<Turn>)
    requires IsPlan(rows, plan) && plan != []
    ensures MakeOne(Fractions(Heights(plan))) <==> Sum(Heights(plan)) <= MAX_INT
  {
    SumPositive(rows, plan);
    hide IsPlan, Sum, Fractions;
    FractionsOfSum(Heights(plan));
  }

  lemma FractionsOfSum(heights: seq<int>)
    requires Sum(heights) >= 1 && heights != []
    ensures MakeOne(Fractions(heights)) <==> Sum(heights) <= MAX_INT
  {
    hide Sum, SumReals, Wrap;
    var total := Wrap(Sum(heights));
    WrapTwice(Sum(heights), 0);
    if total == 0 {
      assert Fractions(heights)[0] == Infinite;
    } else {
      SharesOf(heights, total);
      assert PartsOf(Fractions(heights))
          == seq(|heights|, i requires 0 <= i < |heights| => heights[i] as real / total as real);
      WholeIffEqual(Sum(heights), total);
    }
  }

  lemma WholeIffEqual(n: int, d: int)
    requires d != 0
    ensures n as real / d as real == 1.0 <==> n == d
  {
  }

  // ---------------------------------------------------------------- towers

  /** Rows of one widget each, all of the same height. */
  predicate IsTower(rows: seq<LayoutRow>, h: int) {
    forall q :: 0 <= q < |rows| ==> |rows[q]| == 1 && rows[q][0].height == h >= 1
  }

  const AT_TOP := Placement(0, 0, 0)
  const BELOW := Placement(1, 0, 0)

  lemma HeightOfOne(row: LayoutRow)
    requires |row| == 1 && row[0].height >= 1
    ensures RowHeight(row) == row[0].height
  {
    assert row[..0] == [];
  }

  lemma TopOfTower(rows: seq<LayoutRow>, h: int)
    requires rows != [] && |rows[0]| == 1 && rows[0][0].height == h
    ensures TotalHeight(Column(rows, [], 0)) == 0
    ensures InRows(rows, [AT_TOP]) && TotalHeight(Column(rows, [AT_TOP], 0)) == h
  {
    EmptyLog(rows, 0);
    hide Column, TotalHeight;
    assert [] + [AT_TOP] == [AT_TOP];
    HeightAfter(rows, [], AT_TOP, 0);
  }

  lemma BelowTop(rows: seq<LayoutRow>, h: int)
    requires |rows| >= 2 && |rows[0]| == 1 && rows[0][0].height == h && |rows[1]| == 1 && rows[1][0].height == h
    ensures InRows(rows, [AT_TOP, BELOW]) && TotalHeight(Column(rows, [AT_TOP, BELOW], 0)) == 2 * h
  {
    hide Column, TotalHeight;
    TopOfTower(rows, h);
    assert [AT_TOP] + [BELOW] == [AT_TOP, BELOW];
    HeightAfter(rows, [AT_TOP], BELOW, 0);
  }

  lemma FirstPositions(rows: seq<LayoutRow>)
    requires rows != [] && |rows[0]| == 1
    ensures Before(rows, 1, 0) == [(0, 0)] == Positions([AT_TOP])
    ensures |rows| >= 2 && |rows[1]| == 1 && |rows| == 2 ==>
              Before(rows, 2, 0) == [(0, 0), (1, 0)] == Positions([AT_TOP, BELOW])
  {
    assert Before(rows, 0, 1) == [] + [(0, 0)] == [(0, 0)];
  }

  lemma OneFirstFit(rows: seq<LayoutRow>, h: int)
    requires rows != [] && |rows[0]| == 1 && rows[0][0].height == h
    ensures InRows(rows, [AT_TOP]) && AllFirstFit(rows, 1, h, [AT_TOP])
  {
    hide Column, TotalHeight, Wrap;
    TopOfTower(rows, h);
    WrapTwice(h, 0);
    assert [AT_TOP][..0] == [];
    assert FirstFit(rows, 1, h, [], AT_TOP);
    hide FirstFit;
  }

  lemma SecondIsStuck(rows: seq<LayoutRow>, h: int)
    requires |rows| >= 2 && |rows[0]| == 1 && rows[0][0].height == h && |rows[1]| == 1 && rows[1][0].height == h
    requires h >= 1 && 2 * h <= MAX_INT
    ensures InRows(rows, [AT_TOP]) && Stuck(rows, 1, h, [AT_TOP], 1, 0)
  {
    hide Column, TotalHeight, Wrap;
    TopOfTower(rows, h);
    WrapTwice(h + h, 0);
  }

  lemma OneWidgetBlock(rows: seq<LayoutRow>, h: int)
    requires IsTower(rows, h) && rows != [] && 2 * h <= MAX_INT
    ensures Packs(rows, h, 1, 0, [AT_TOP])
  {
    assert |rows[0]| == 1 && rows[0][0].height == h >= 1;
    assert |rows| >= 2 ==> |rows[1]| == 1 && rows[1][0].height == h;
    hide IsTower, AllFirstFit, Stuck, RowHeight, Before, Positions;
    HeightOfOne(rows[0]);
    FirstPositions(rows);
    OneFirstFit(rows, h);
    if |rows| >= 2 {
      SecondIsStuck(rows, h);
    }
  }

  lemma TwiceWraps(h: int)
    requires MAX_INT < 2 * h <= 2 * MAX_INT
    ensures Wrap(h + h) < 0
  {
  }

  lemma TwoFirstFits(rows: seq<LayoutRow>, h: int)
    requires |rows| == 2 && |rows[0]| == 1 && rows[0][0].height == h && |rows[1]| == 1 && rows[1][0].height == h
    requires MAX_INT < 2 * h <= 2 * MAX_INT
    ensures InRows(rows, [AT_TOP, BELOW]) && AllFirstFit(rows, 1, h, [AT_TOP, BELOW])
  {
    hide Column, TotalHeight, Wrap, AllFirstFit;
    TopOfTower(rows, h);
    TwiceWraps(h);
    WrapTwice(h, 0);
    assert FirstFit(rows, 1, h, [], AT_TOP);
    assert FirstFit(rows, 1, h, [AT_TOP], BELOW);
    hide FirstFit;
    TwoPlacements(rows, h, AT_TOP, BELOW);
  }

  lemma TwoPlacements(rows: seq<LayoutRow>, h: int, p: Placement, q: Placement)
    requires InRows(rows, []) && InRows(rows, [p]) && p.row < |rows| && p.index < |rows[p.row]|
    requires q.row < |rows| && q.index < |rows[q.row]|
    requires FirstFit(rows, 1, h, [], p) && FirstFit(rows, 1, h, [p], q)
    ensures InRows(rows, [p, q]) && AllFirstFit(rows, 1, h, [p, q])
  {
    hide FirstFit;
    assert [p, q][..0] == [] && [p, q][..1] == [p];
  }

  lemma TwoWidgetBlock(rows: seq<LayoutRow>, h: int)
    requires IsTower(rows, h) && |rows| == 2 && MAX_INT < 2 * h <= 2 * MAX_INT
    ensures Packs(rows, h, 2, 0, [AT_TOP, BELOW])
  {
    assert |rows[0]| == 1 && rows[0][0].height == h && |rows[1]| == 1 && rows[1][0].height == h;
    hide IsTower, AllFirstFit, RowHeight, Before, Positions;
    HeightOfOne(rows[0]);
    FirstPositions(rows);
    TwoFirstFits(rows, h);
  }

  /** A plan that takes up all rows. */
  predicate Complete(rows: seq<LayoutRow>, plan: seq<Turn>) {
    IsPlan(rows, plan) && EndOf(plan) == |rows|
  }

  lemma OnlyComplete(rows: seq<LayoutRow>, plan: seq<Turn>)
    requires Complete(rows, plan)
    ensures forall other :: Complete(rows, other) ==> other == plan
  {
    forall other | Complete(rows, other)
      ensures other == plan
    {
      PlanUnique(rows, other, plan);
    }
  }

  lemma CompleteSharesTheScreen(rows: seq<LayoutRow>, plan: seq<Turn>)
    requires Complete(rows, plan) && rows != []
    ensures MakeOne(Fractions(Heights(plan))) <==> Sum(Heights(plan)) <= MAX_INT
  {
    assert plan != [];
    BlocksFillTheScreen(rows, plan);
  }

  function TowerPlan(n: nat, h: int): seq<Turn> {
    seq(n, b requires 0 <= b < n => Turn(b, h, 1, 0, [AT_TOP]))
  }

  lemma TopOff(rows: seq<LayoutRow>, h: int, b: nat)
    requires IsTower(rows, h) && b <= |rows|
    ensures IsTower(rows[b..], h)
  {
    forall q | 0 <= q < |rows[b..]|
      ensures |rows[b..][q]| == 1 && rows[b..][q][0].height == h >= 1
    {
      assert rows[b..][q] == rows[b + q];
    }
  }

  lemma TowerPlanComplete(rows: seq<LayoutRow>, h: int)
    requires IsTower(rows, h) && rows != [] && 2 * h <= MAX_INT
    ensures Complete(rows, TowerPlan(|rows|, h)) && Sum(Heights(TowerPlan(|rows|, h))) == |rows| * h
  {
    forall b | 0 <= b < |rows|
      ensures Packs(rows[b..], h, 1, 0, [AT_TOP])
    {
      TopOff(rows, h, b);
      OneWidgetBlock(rows[b..], h);
    }
    hide Packs, Sum, IsTower;
    SumOfEqual(Heights(TowerPlan(|rows|, h)), h);
  }

  /** Widgets of up to half the largest height are put in blocks of their own, so their heights make up the
      screen exactly if they add up in 64 bits; three of 4 * 10^18, say, do not. */
  lemma TowersShareTheScreen(rows: seq<LayoutRow>, h: int)
    requires IsTower(rows, h) && rows != [] && 2 * h <= MAX_INT
    ensures exists plan: seq<Turn> :: Complete(rows, plan)
    ensures forall plan: seq<Turn> :: Complete(rows, plan) ==>
              (MakeOne(Fractions(Heights(plan))) <==> |rows| * h <= MAX_INT)
  {
    hide Packs, Sum, MakeOne, Fractions, IsPlan, EndOf, Heights, TowerPlan, IsTower, Complete;
    var tower := TowerPlan(|rows|, h);
    TowerPlanComplete(rows, h);
    CompleteSharesTheScreen(rows, tower);
    OnlyComplete(rows, tower);
  }

  lemma {:induction false} SumOfEqual(ns: seq<int>, n: int)
    requires forall i :: 0 <= i < |ns| ==> ns[i] == n
    ensures Sum(ns) == |ns| * n
  {
    if ns != [] {
      SumOfEqual(ns[..|ns| - 1], n);
      assert |ns| * n == (|ns| - 1) * n + n;
    }
  }

  /** Two widgets of more than half the largest height are put on top of each other in one block, which is
      only as high as one of them. */
  lemma TallTowerOverflows(rows: seq<LayoutRow>, h: int)
    requires IsTower(rows, h) && |rows| == 2 && 2 * h > MAX_INT
    ensures exists plan: seq<Turn> :: Complete(rows, plan)
    ensures forall plan: seq<Turn> :: Complete(rows, plan) ==>
              && |plan| == 1 && plan[0].height == h && InRows(rows, plan[0].log)
              && TotalHeight(Column(rows, plan[0].log, 0)) == 2 * h
  {
    hide IsTower, Packs, InRows, Column, TotalHeight, Complete;
    TowerOfTwo(rows, h);
    BelowTop(rows, h);
    TwoWidgetBlock(rows, h);
    var block := Turn(0, h, 2, 0, [AT_TOP, BELOW]);
    OneTurn(rows, block);
    OnlyComplete(rows, [block]);
  }

  lemma TowerOfTwo(rows: seq<LayoutRow>, h: int)
    requires IsTower(rows, h) && |rows| == 2
    ensures |rows[0]| == 1 && rows[0][0].height == h && |rows[1]| == 1 && rows[1][0].height == h
    ensures 1 <= h <= MAX_INT
  {
    assert rows[0][0].height == h && rows[1][0].height == h;
  }

  lemma OneTurn(rows: seq<LayoutRow>, t: Turn)
    requires rows != [] && t.start == 0 && t.used == |rows| && Packs(rows, t.height, t.used, t.partial, t.log)
    ensures IsPlan(rows, [t]) && Complete(rows, [t])
  {
    hide Packs;
    assert rows[0..] == rows;
  }

  function Weights(row: LayoutRow): seq<real> {
    seq(|row|, i requires 0 <= i < |row| => row[i].weight)
  }

  function ColumnWeights(columns: seq<UiColumn>): seq<real> {
    seq(|columns|, i requires 0 <= i < |columns| => columns[i].weight)
  }

  /** The columns of a block share out its width as the widgets of its first row do. */
  lemma ColumnsFillTheBlock(rows: seq<LayoutRow>, t: Turn)
    requires t.start < |rows| && Packs(rows[t.start..], t.height, t.used, t.partial, t.log)
    ensures ColumnWeights(BlockOf(rows, t).columns) == Weights(rows[t.start])
  {
    hide Packs, UiItems, Column;
    PacksBounds(rows[t.start..], t.height, t.used, t.partial, t.log);
  }

  /** Where the block with this number starts; past the last block, where the plan ends. */
  ghost function StartOf(plan: seq<Turn>, b: nat): nat
    requires b <= |plan|
  {
    if b == |plan| then EndOf(plan) else plan[b].start
  }

  ghost predicate NoEarlyStop(rows: seq<LayoutRow>, plan: seq<Turn>) {
    forall b :: 0 <= b < |plan| ==> plan[b].used == Min(plan[b].height, |rows| - plan[b].start)
  }

  lemma TurnFacts(rows: seq<LayoutRow>, plan: seq<Turn>, b: nat)
    requires IsPlan(rows, plan) && b < |plan|
    ensures var start, t := StartOf(plan, b), plan[b];
            && start < |rows| && t.height == RowHeight(rows[start..][0]) && 1 <= t.used <= |rows| - start
            && StartOf(plan, b + 1) == start + t.used
            && rows[start..][t.used..] == rows[start + t.used..]
            && (NoEarlyStop(rows, plan) ==> t.used == Min(t.height, |rows| - start))
  {
    PacksBounds(rows[plan[b].start..], plan[b].height, plan[b].used, plan[b].partial, plan[b].log);
    hide InRows, AllFirstFit, Positions, Stuck, Before, RowHeight;
  }

  /** When no block stops early, blocks and heights are what the counting functions say. */
  lemma {:induction false} CountsAgree(rows: seq<LayoutRow>, plan: seq<Turn>, from: nat)
    requires IsPlan(rows, plan) && EndOf(plan) == |rows| && from <= |plan| && NoEarlyStop(rows, plan)
    ensures StartOf(plan, from) <= |rows|
    ensures |plan| - from == NumRows(rows[StartOf(plan, from)..])
    ensures Sum(Heights(plan)) - Sum(Heights(plan)[..from]) == MaxHeight(rows[StartOf(plan, from)..])
    decreases |plan| - from
  {
    hide Packs, IsPlan, RowHeight, NumRows, MaxHeight, Sum, EndOf, StartOf, NoEarlyStop, Heights;
    var heights := Heights(plan);
    HeightsAre(plan);
    if from == |plan| {
      NothingToCount(rows, plan);
      assert heights[..from] == heights;
    } else {
      TurnFacts(rows, plan, from);
      CountsAgree(rows, plan, from + 1);
      SumStep(heights, from);
      CountStep(rows[StartOf(plan, from)..], plan[from].used);
    }
  }

  lemma HeightsAre(plan: seq<Turn>)
    ensures |Heights(plan)| == |plan| && forall b :: 0 <= b < |plan| ==> Heights(plan)[b] == plan[b].height
  {
  }

  lemma NothingToCount(rows: seq<LayoutRow>, plan: seq<Turn>)
    requires EndOf(plan) == |rows|
    ensures StartOf(plan, |plan|) == |rows| && NumRows(rows[|rows|..]) == 0 && MaxHeight(rows[|rows|..]) == 0
  {
  }

  lemma SumStep(ns: seq<int>, i: nat)
    requires i < |ns|
    ensures Sum(ns[..i + 1]) == Sum(ns[..i]) + ns[i]
  {
    assert ns[..i + 1][..i] == ns[..i];
  }

  lemma CountStep(rows: seq<LayoutRow>, used: nat)
    requires rows != [] && used == Min(RowHeight(rows[0]), |rows|)
    ensures NumRows(rows) == 1 + NumRows(rows[used..])
    ensures MaxHeight(rows) == RowHeight(rows[0]) + MaxHeight(rows[used..])
  {
    hide RowHeight;
  }

  /** The number of blocks and their total height, for a layout that no block has to give rows back of. */
  lemma NoEarlyStopCounts(rows: seq<LayoutRow>, plan: seq<Turn>)
    requires IsPlan(rows, plan) && EndOf(plan) == |rows| && NoEarlyStop(rows, plan)
    ensures |plan| == NumRows(rows) && Sum(Heights(plan)) == MaxHeight(rows)
  {
    assert StartOf(plan, 0) == 0;
    hide Packs, IsPlan, StartOf, NumRows, MaxHeight, Heights;
    CountsAgree(rows, plan, 0);
    assert rows[0..] == rows && Heights(plan)[..0] == [];
  }
}
