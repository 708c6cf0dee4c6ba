/** The scrolling table of termui/table.go: its window, its cursor, and how the cursor stays on the
    same item while the rows change. */
module Table {
  import opened GoInt

  type Row = seq<string>

  // ---------------------------------------------------------------- the window

  /** What scrolling depends on and changes. */
  datatype Cursor = Cursor(selected: int, top: int)

  /** `calcPos`. */
  function Clamp(c: Cursor, rows: nat, dy: int): Cursor {
    var selected := if c.selected < 0 then 0 else c.selected;
    var top := if selected < c.top then selected else c.top;
    var last := if selected > rows - 1 then rows - 1 else selected;
    Cursor(last, if last > top + (dy - 2) then last - (dy - 2) else top)
  }

  datatype Scroll = Up | Down | ToTop | ToBottom | HalfPageUp | HalfPageDown | PageUp | PageDown | Click(x: int, y: int)

  function Scrolled(c: Cursor, s: Scroll, rows: nat, dx: int, dy: int): Cursor {
    match s
    case Up => Clamp(c.(selected := c.selected - 1), rows, dy)
    case Down => Clamp(c.(selected := c.selected + 1), rows, dy)
    case ToTop => Clamp(c.(selected := 0), rows, dy)
    case ToBottom => Clamp(c.(selected := rows - 1), rows, dy)
    case HalfPageUp => Clamp(c.(selected := c.selected - Quo(dy - 2, 2)), rows, dy)
    case HalfPageDown => Clamp(c.(selected := c.selected + Quo(dy - 2, 2)), rows, dy)
    case PageUp => Clamp(c.(selected := c.selected - (dy - 2)), rows, dy)
    case PageDown => Clamp(c.(selected := c.selected + (dy - 2)), rows, dy)
    case Click(x, y) =>
      if 0 < x <= dx && 0 < y <= dy then Clamp(c.(selected := c.top + y - 2), rows, dy) else c
  }

  /** The numbers of the rows a window shows below its header. */
  function Printed(top: int, dy: int, rows: nat): seq<int> {
    seq(Max(0, Min(top + dy - 1, rows) - top), i requires 0 <= i => top + i)
  }

  /** The cursor is on a row that is drawn, and the window does not start further down than it
      takes to show the last row. */
  predicate InWindow(c: Cursor, rows: nat, dy: int) {
    0 <= c.top <= c.selected <= c.top + (dy - 2) && c.selected < rows && c.top <= Max(0, rows - dy + 1)
  }

  /** Wherever the cursor is put, it is clamped into a window that does not start too far down. */
  lemma ClampIntoWindow(c: Cursor, rows: nat, dy: int)
    requires dy >= 2 && rows >= 1 && 0 <= c.top <= Max(0, rows - dy + 1)
    ensures InWindow(Clamp(c, rows, dy), rows, dy)
  {
  }

  /** Every scroll keeps the cursor in the window, also over rows that have been added. */
  lemma ScrollStaysInWindow(c: Cursor, s: Scroll, before: nat, rows: nat, dx: int, dy: int)
    requires dy >= 2 && before <= rows && InWindow(c, before, dy)
    ensures InWindow(Scrolled(c, s, rows, dx, dy), rows, dy)
  {
    forall selected
      ensures InWindow(Clamp(c.(selected := selected), rows, dy), rows, dy)
    {
      ClampIntoWindow(c.(selected := selected), rows, dy);
    }
    hide Clamp, Quo;
  }

  /** How far each scroll goes: one row, half a page or a page, but not past the first or last row. */
  lemma ScrollSelects(c: Cursor, s: Scroll, rows: nat, dx: int, dy: int)
    requires dy >= 2 && 0 <= c.selected < rows && !s.Click?
    ensures Scrolled(c, s, rows, dx, dy).selected ==
              match s
              case Up => Max(c.selected - 1, 0)
              case Down => Min(c.selected + 1, rows - 1)
              case ToTop => 0
              case ToBottom => rows - 1
              case HalfPageUp => Max(c.selected - (dy - 2) / 2, 0)
              case HalfPageDown => Min(c.selected + (dy - 2) / 2, rows - 1)
              case PageUp => Max(c.selected - (dy - 2), 0)
              case PageDown => Min(c.selected + (dy - 2), rows - 1)
              case Click(_, _) => c.selected
  {
  }

  /** The window moves no further than it takes to show the row that is selected. */
  lemma WindowMovesLeast(c: Cursor, target: int, rows: nat, dy: int, top: int)
    requires dy >= 2 && rows >= 1 && 0 <= c.top <= Max(0, rows - dy + 1)
    requires var d := Clamp(c.(selected := target), rows, dy); 0 <= top <= d.selected <= top + (dy - 2)
    ensures Abs(Clamp(c.(selected := target), rows, dy).top - c.top) <= Abs(top - c.top)
  {
  }

  /** A click outside the table does nothing. */
  lemma ClickOutside(c: Cursor, rows: nat, dx: int, dy: int, x: int, y: int)
    requires x <= 0 || x > dx || y <= 0 || y > dy
    ensures Scrolled(c, Click(x, y), rows, dx, dy) == c
  {
  }

  /** A window prints one row less than it is high, below its header, each row once and in order. */
  lemma PrintedRows(top: int, dy: int, rows: nat)
    requires top >= 0
    ensures forall k :: k in Printed(top, dy, rows) <==> top <= k < top + dy - 1 && k < rows
    ensures forall i :: 0 <= i < |Printed(top, dy, rows)| - 1 ==>
              Printed(top, dy, rows)[i + 1] == Printed(top, dy, rows)[i] + 1
  {
    forall k | top <= k < top + dy - 1 && k < rows
      ensures k in Printed(top, dy, rows)
    {
      assert Printed(top, dy, rows)[k - top] == k;
    }
  }

  /** Whatever the state, the rows and the height, the window never starts above the first row. */
  lemma TopNeverNegative(c: Cursor, s: Scroll, rows: nat, dx: int, dy: int)
    requires c.top >= 0
    ensures Scrolled(c, s, rows, dx, dy).top >= 0
  {
    forall selected
      ensures Clamp(c.(selected := selected), rows, dy).top >= 0
    {
    }
    hide Clamp, Quo;
  }

  /** A click on a row that is printed moves the cursor to that row, and not the window. */
  lemma ClickSelectsRow(c: Cursor, rows: nat, dx: int, dy: int, x: int, k: int)
    requires c.top >= 0 && 0 < x <= dx && k in Printed(c.top, dy, rows)
    ensures Scrolled(c, Click(x, k + 2 - c.top), rows, dx, dy) == Cursor(k, c.top)
  {
  }

  /** One on the header moves the window up by a row, as far as there is one. */
  lemma ClickOnHeaderScrolls(c: Cursor, rows: nat, dx: int, dy: int, x: int)
    requires 0 <= c.top <= rows && rows >= 1 && 0 < x <= dx && dy >= 2
    ensures Scrolled(c, Click(x, 1), rows, dx, dy) == if c.top == 0 then Cursor(0, 0) else Cursor(c.top - 1, c.top - 1)
  {
  }

  /** Is the cursor on a row that is drawn? */
  predicate Visible(c: Cursor, rows: nat, dy: int) {
    0 <= c.top <= c.selected <= c.top + (dy - 2) && c.selected < rows
  }

  /** After rows have gone away, one step up brings the cursor back into the window unless both the
      window and the cursor were beyond the last row; two steps always do. */
  lemma StepsUpRecover(c: Cursor, rows: nat, dx: int, dy: int)
    requires c.top >= 0 && rows >= 1 && dy >= 2
    ensures var once := Scrolled(c, Up, rows, dx, dy);
            && (Visible(once, rows, dy) <==> !(c.top >= rows && c.selected > rows))
            && Visible(Scrolled(once, Up, rows, dx, dy), rows, dy)
  {
  }

  // ---------------------------------------------------------------- drawing and the cursor

  /** Is the row with this number the one under the cursor? */
  predicate Marked(item: string, selected: int, row: Row, rowNum: int, uniqueCol: nat)
    requires uniqueCol < |row|
  {
    if item == "" then rowNum == selected else item == row[uniqueCol]
  }

  predicate HasColumn(rows: seq<Row>, uniqueCol: nat) {
    forall i :: 0 <= i < |rows| ==> uniqueCol < |rows[i]|
  }

  predicate Identified(rows: seq<Row>, uniqueCol: nat)
    requires HasColumn(rows, uniqueCol)
  {
    forall i, j :: 0 <= i < j < |rows| ==> rows[i][uniqueCol] != rows[j][uniqueCol]
  }

  lemma RowsDiffer(rows: seq<Row>, uniqueCol: nat, rowNum: nat)
    requires HasColumn(rows, uniqueCol) && rowNum < |rows|
    ensures Identified(rows, uniqueCol) ==> forall k :: 0 <= k < rowNum ==> rows[k][uniqueCol] != rows[rowNum][uniqueCol]
  {
  }

  class Table {
    var rows: seq<Row>
    var innerDx: int
    var innerDy: int
    var corner: (int, int)
    var showCursor: bool
    var uniqueCol: nat
    var selectedItem: string
    var selectedRow: int
    var topRow: int

    function View(): Cursor
      reads this`selectedRow, this`topRow
    {
      Cursor(selectedRow, topRow)
    }

    constructor ()
      ensures View() == Cursor(0, 0) && rows == [] && uniqueCol == 0 && selectedItem == ""
    {
      rows, innerDx, innerDy, corner := [], 0, 0, (0, 0);
      showCursor, uniqueCol, selectedItem, selectedRow, topRow := false, 0, "", 0, 0;
    }

    method CalcPos()
      modifies this`selectedItem, this`selectedRow, this`topRow
      ensures selectedItem == "" && View() == Clamp(old(View()), |rows|, innerDy)
    {
      selectedItem := "";
      if selectedRow < 0 {
        selectedRow := 0;
      }
      if selectedRow < topRow {
        topRow := selectedRow;
      }
      if selectedRow > |rows| - 1 {
        selectedRow := |rows| - 1;
      }
      if selectedRow > topRow + (innerDy - 2) {
        topRow := selectedRow - (innerDy - 2);
      }
    }

    method ScrollUp()
      modifies this`selectedItem, this`selectedRow, this`topRow
      ensures selectedItem == "" && View() == Scrolled(old(View()), Up, |rows|, innerDx, innerDy)
    {
      selectedRow := selectedRow - 1;
      CalcPos();
    }

    method ScrollDown()
      modifies this`selectedItem, this`selectedRow, this`topRow
      ensures selectedItem == "" && View() == Scrolled(old(View()), Down, |rows|, innerDx, innerDy)
    {
      selectedRow := selectedRow + 1;
      CalcPos();
    }

    method ScrollTop()
      modifies this`selectedItem, this`selectedRow, this`topRow
      ensures selectedItem == "" && View() == Scrolled(old(View()), ToTop, |rows|, innerDx, innerDy)
    {
      selectedRow := 0;
      CalcPos();
    }

    method ScrollBottom()
      modifies this`selectedItem, this`selectedRow, this`topRow
      ensures selectedItem == "" && View() == Scrolled(old(View()), ToBottom, |rows|, innerDx, innerDy)
    {
      selectedRow := |rows| - 1;
      CalcPos();
    }

    method ScrollHalfPageUp()
      modifies this`selectedItem, this`selectedRow, this`topRow
      ensures selectedItem == "" && View() == Scrolled(old(View()), HalfPageUp, |rows|, innerDx, innerDy)
    {
      selectedRow := selectedRow - Quo(innerDy - 2, 2);
      CalcPos();
    }

    method ScrollHalfPageDown()
      modifies this`selectedItem, this`selectedRow, this`topRow
      ensures selectedItem == "" && View() == Scrolled(old(View()), HalfPageDown, |rows|, innerDx, innerDy)
    {
      selectedRow := selectedRow + Quo(innerDy - 2, 2);
      CalcPos();
    }

    method ScrollPageUp()
      modifies this`selectedItem, this`selectedRow, this`topRow
      ensures selectedItem == "" && View() == Scrolled(old(View()), PageUp, |rows|, innerDx, innerDy)
    {
      selectedRow := selectedRow - (innerDy - 2);
      CalcPos();
    }

    method ScrollPageDown()
      modifies this`selectedItem, this`selectedRow, this`topRow
      ensures selectedItem == "" && View() == Scrolled(old(View()), PageDown, |rows|, innerDx, innerDy)
    {
      selectedRow := selectedRow + (innerDy - 2);
      CalcPos();
    }

    method HandleClick(x: int, y: int)
      modifies this`selectedItem, this`selectedRow, this`topRow
      ensures View() == Scrolled(old(View()), Click(x - corner.0, y - corner.1), |rows|, innerDx, innerDy)
      ensures selectedItem == "" || selectedItem == old(selectedItem)
    {
      var dx, dy := x - corner.0, y - corner.1;
      if (dx > 0 && dx <= innerDx) && (dy > 0 && dy <= innerDy) {
        selectedRow := (topRow + dy) - 2;
        CalcPos();
      }
    }

    /** Prints the rows of the window and moves the cursor to the selected item; returns the numbers
        of the rows printed and, among them, of those under the cursor. Rows with different items
        have at most one under the cursor: the selected item's if it is in the window. */
    method Draw() returns (printed: seq<int>, marked: seq<int>)
      requires HasColumn(rows, uniqueCol)
      modifies this`selectedItem, this`selectedRow
      ensures topRow < 0 ==> printed == [] && unchanged(this)
      ensures topRow >= 0 ==> printed == Printed(topRow, innerDy, |rows|)
      ensures !showCursor ==> marked == [] && unchanged(this)
      ensures showCursor && topRow >= 0 && Identified(rows, uniqueCol) ==>
                && |marked| <= 1
                && (forall rowNum :: topRow <= rowNum < topRow + innerDy - 1 && rowNum < |rows| ==>
                      (rowNum in marked <==>
                         Marked(old(selectedItem), old(selectedRow), rows[rowNum], rowNum, uniqueCol)))
      ensures showCursor && topRow >= 0 && Identified(rows, uniqueCol) ==>
                forall r :: topRow <= r < topRow + innerDy - 1 && r < |rows| &&
                            (if old(selectedItem) != "" then rows[r][uniqueCol] == old(selectedItem)
                             else r == old(selectedRow)) ==>
                  selectedRow == r && selectedItem == rows[r][uniqueCol]
      ensures marked == [] ==> unchanged(this)
      ensures marked != [] ==>
                var last := marked[|marked| - 1];
                && last in printed && selectedRow == last && selectedItem == rows[last][uniqueCol]
    {
      hide Identified;
      printed, marked := [], [];
      if topRow < 0 {
        return;
      }
      var rowNum := topRow;
      while rowNum < topRow + innerDy - 1 && rowNum < |rows|
        invariant topRow <= rowNum
        invariant rowNum <= Max(topRow, Min(topRow + innerDy - 1, |rows|))
        invariant |printed| == rowNum - topRow && forall i :: 0 <= i < |printed| ==> printed[i] == topRow + i
        invariant forall k :: 0 <= k < |marked| ==> topRow <= marked[k] < rowNum
        invariant !showCursor ==> marked == []
        invariant marked == [] ==> selectedItem == old(selectedItem) && selectedRow == old(selectedRow)
        invariant marked != [] ==> var last := marked[|marked| - 1];
                    last < |rows| && last in printed && selectedRow == last && selectedItem == rows[last][uniqueCol]
        invariant showCursor && Identified(rows, uniqueCol) ==> |marked| <= 1
        invariant showCursor && Identified(rows, uniqueCol) ==>
                    forall k :: topRow <= k < rowNum && k < |rows| ==>
                      (k in marked <==> Marked(old(selectedItem), old(selectedRow), rows[k], k, uniqueCol))
        decreases |rows| - rowNum
      {
        var row := rows[rowNum];
        RowsDiffer(rows, uniqueCol, rowNum);
        if showCursor {
          if (selectedItem == "" && rowNum == selectedRow) || (selectedItem != "" && selectedItem == row[uniqueCol]) {
            selectedItem := row[uniqueCol];
            selectedRow := rowNum;
            marked := marked + [rowNum];
          }
        }
        printed := printed + [rowNum];
        rowNum := rowNum + 1;
      }
    }
  }

  // ---------------------------------------------------------------- whole runs

  datatype Event = Scrolling(s: Scroll) | Drawing(marked: int) | NewRows(rows: nat) | Resized(dx: int, dy: int)

  datatype State = State(c: Cursor, rows: nat, dx: int, dy: int)

  /** A draw may move the cursor, but only to a row it prints; `Table.Draw` shows that it does no more. */
  predicate Possible(s: State, e: Event) {
    match e
    case Scrolling(_) => true
    case Drawing(marked) => s.c.top <= marked < s.c.top + s.dy - 1 && marked < s.rows
    case NewRows(rows) => true
    case Resized(dx, dy) => true
  }

  function Step(s: State, e: Event): State {
    match e
    case Scrolling(scroll) => s.(c := Scrolled(s.c, scroll, s.rows, s.dx, s.dy))
    case Drawing(marked) => s.(c := s.c.(selected := marked))
    case NewRows(rows) => s.(rows := rows)
    case Resized(dx, dy) => s.(dx := dx, dy := dy)
  }

  function Run(s: State, events: seq<Event>): State {
    if events == [] then s else Step(Run(s, events[..|events| - 1]), events[|events| - 1])
  }

  predicate IsRun(s: State, events: seq<Event>) {
    forall i :: 0 <= i < |events| ==> Possible(Run(s, events[..i]), events[i])
  }

  /** No rows go away, and the height stays as it is. */
  predicate Steady(s: State, events: seq<Event>) {
    forall i :: 0 <= i < |events| ==>
      match events[i]
      case NewRows(rows) => Run(s, events[..i]).rows <= rows
      case Resized(dx, dy) => dy == Run(s, events[..i]).dy
      case _ => true
  }

  lemma Front(s: State, events: seq<Event>)
    requires events != [] && IsRun(s, events) && Steady(s, events)
    ensures IsRun(s, events[..|events| - 1]) && Steady(s, events[..|events| - 1])
    ensures var before, last := Run(s, events[..|events| - 1]), events[|events| - 1];
            && Possible(before, last)
            && (last.NewRows? ==> before.rows <= last.rows) && (last.Resized? ==> last.dy == before.dy)
  {
    assert forall i :: 0 <= i < |events| ==> events[..|events| - 1][..Min(i, |events| - 1)] == events[..i];
  }

  /** From the initial state, over any mix of scrolls, clicks, draws and growing rows, the cursor is
      always on a row that is drawn. */
  lemma {:induction false} WindowInvariant(rows: nat, dx: int, dy: int, events: seq<Event>)
    requires dy >= 2 && rows >= 1
    requires IsRun(State(Cursor(0, 0), rows, dx, dy), events) && Steady(State(Cursor(0, 0), rows, dx, dy), events)
    ensures var s := Run(State(Cursor(0, 0), rows, dx, dy), events);
            s.dy == dy && InWindow(s.c, s.rows, dy) && s.c.selected in Printed(s.c.top, dy, s.rows)
  {
    var start := State(Cursor(0, 0), rows, dx, dy);
    if events != [] {
      Front(start, events);
      var front, last := events[..|events| - 1], events[|events| - 1];
      WindowInvariant(rows, dx, dy, front);
      var s := Run(start, front);
      match last
      case Scrolling(scroll) => ScrollStaysInWindow(s.c, scroll, s.rows, s.rows, s.dx, dy);
      case _ =>
    }
    var s := Run(start, events);
    assert Printed(s.c.top, dy, s.rows)[s.c.selected - s.c.top] == s.c.selected;
  }

  /** Over any run at all, with rows coming and going and the table changing its size, `Draw` never finds
      the window above the first row. */
  lemma {:induction false} DrawNeverGivesUp(s: State, events: seq<Event>)
    requires s.c.top >= 0
    ensures Run(s, events).c.top >= 0
  {
    if events != [] {
      var front, last := events[..|events| - 1], events[|events| - 1];
      DrawNeverGivesUp(s, front);
      if last.Scrolling? {
        var t := Run(s, front);
        TopNeverNegative(t.c, last.s, t.rows, t.dx, t.dy);
      }
    }
  }
}
