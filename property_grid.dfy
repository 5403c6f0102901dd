// PropertyGrid: a list of name/value rows with one optional selected row.

module PropertyGrids {
  import opened DrawCommands
  import opened Events

  datatype PropertyItem = PropertyItem(name: Text, value: Text, kind: Text)

  /** The bytes of "string", AddProperty's default type. */
  const STRING_TYPE: Text := [115, 116, 114, 105, 110, 103]

  const ITEM_HEIGHT: real := 25.0
  /** Space between the top of the grid and the first row, and between a row and its text. */
  const PADDING: real := 5.0

  const BACKGROUND_COLOR := Color(0.25, 0.25, 0.25, 1.0)
  const SELECTION_COLOR := Color(0.4, 0.4, 0.6, 1.0)
  const NAME_COLOR := Color(0.8, 0.8, 0.8, 1.0)
  const VALUE_COLOR := Color(1.0, 1.0, 1.0, 1.0)

  /** The selection invariant: no row (-1) or an index into the items. */
  predicate SelectionValid(selectedIndex: int, count: nat)
  {
    -1 <= selectedIndex < count
  }

  /** Top edge of row i. */
  function RowTop(bounds: Rect, i: nat): real
  {
    bounds.y + PADDING + ITEM_HEIGHT * (i as real)
  }

  /** The commands of row i: its highlight when selected, then its name, then its value. */
  function RowCommands(bounds: Rect, item: PropertyItem, selectedIndex: int, i: nat): seq<DrawCommand>
  {
    var y := RowTop(bounds, i);
    (if i == selectedIndex
     then [Record(RectOp(Rect(bounds.x, y, bounds.width, ITEM_HEIGHT), SELECTION_COLOR))]
     else [])
    + [Record(TextOp(item.name, bounds.x + PADDING, y + PADDING, NAME_COLOR)),
       Record(TextOp(item.value, bounds.x + bounds.width / 2.0, y + PADDING, VALUE_COLOR))]
  }

  /** The commands of the first n rows, in row order. */
  function Rows(bounds: Rect, items: seq<PropertyItem>, selectedIndex: int, n: nat): seq<DrawCommand>
    requires n <= |items|
  {
    if n == 0 then []
    else Rows(bounds, items, selectedIndex, n - 1) + RowCommands(bounds, items[n - 1], selectedIndex, n - 1)
  }

  /** What PropertyGrid::OnPaint appends: the background, then every row. */
  function Paint(visible: bool, bounds: Rect, items: seq<PropertyItem>, selectedIndex: int): seq<DrawCommand>
  {
    if !visible then []
    else [Record(RectOp(bounds, BACKGROUND_COLOR))] + Rows(bounds, items, selectedIndex, |items|)
  }

  /** Two texts per row plus one highlight for a selected row among the first n. */
  lemma {:induction false} RowsCount(bounds: Rect, items: seq<PropertyItem>, selectedIndex: int, n: nat)
    requires n <= |items|
    ensures |Rows(bounds, items, selectedIndex, n)| == 2 * n + (if 0 <= selectedIndex < n then 1 else 0)
  {
    if n > 0 {
      RowsCount(bounds, items, selectedIndex, n - 1);
    }
  }

  /**
   * A visible grid paints 1 + 2n commands, plus one when a row is selected, starting
   * with its background; an invisible grid paints nothing.
   */
  lemma PaintCount(visible: bool, bounds: Rect, items: seq<PropertyItem>, selectedIndex: int)
    requires SelectionValid(selectedIndex, |items|)
    ensures var cmds := Paint(visible, bounds, items, selectedIndex);
      && (!visible ==> cmds == [])
      && (visible ==> |cmds| == 1 + 2 * |items| + (if selectedIndex >= 0 then 1 else 0)
                      && cmds[0] == Record(RectOp(bounds, BACKGROUND_COLOR)))
  {
    RowsCount(bounds, items, selectedIndex, |items|);
  }

  /** static_cast<int> on a float: truncation toward zero. */
  function Trunc(r: real): (n: int)
    ensures r >= 0.0 ==> n as real <= r < n as real + 1.0
    ensures r < 0.0 ==> n as real - 1.0 < r <= n as real
    ensures -1.0 < r < 1.0 ==> n == 0
  {
    if r >= 0.0 then r.Floor else -((-r).Floor)
  }

  /** The row index a click at height my maps to. */
  function RowAt(bounds: Rect, my: real): int
  {
    Trunc((my - bounds.y - PADDING) / ITEM_HEIGHT)
  }

  /** PropertyGrid::OnEvent on the selection of a grid with count rows. */
  function Select(selectedIndex: int, count: nat, visible: bool, bounds: Rect, e: Event): int
  {
    if visible && e.kind == MouseDown && Contains(bounds, e.x as real, e.y as real)
       && 0 <= RowAt(bounds, e.y as real) < count
    then RowAt(bounds, e.y as real)
    else selectedIndex
  }

  /**
   * An event keeps the selection or moves it to an existing row; only a mouse-down inside
   * a visible grid can move it. So the selection invariant holds after every event.
   */
  lemma SelectCases(selectedIndex: int, count: nat, visible: bool, bounds: Rect, e: Event)
    ensures var s := Select(selectedIndex, count, visible, bounds, e);
      && (s == selectedIndex || 0 <= s < count)
      && (!visible || e.kind != MouseDown || !Contains(bounds, e.x as real, e.y as real) ==> s == selectedIndex)
      && (SelectionValid(selectedIndex, count) ==> SelectionValid(s, count))
  {
  }

  /** A click on the painted band of an existing row selects that row. */
  lemma RowHit(selectedIndex: int, count: nat, bounds: Rect, e: Event, k: nat)
    requires e.kind == MouseDown && Contains(bounds, e.x as real, e.y as real)
    requires k < count
    requires RowTop(bounds, k) <= e.y as real < RowTop(bounds, k) + ITEM_HEIGHT
    ensures Select(selectedIndex, count, true, bounds, e) == k
  {
    var r := (e.y as real - bounds.y - PADDING) / ITEM_HEIGHT;
    assert k as real <= r < k as real + 1.0;
  }

  /**
   * Because the index is truncated toward zero, a click in the padding above the first
   * row selects row 0 rather than nothing.
   */
  lemma PaddingSelectsFirstRow(selectedIndex: int, count: nat, bounds: Rect, e: Event)
    requires e.kind == MouseDown && Contains(bounds, e.x as real, e.y as real)
    requires count > 0
    requires e.y as real < bounds.y + PADDING
    ensures Select(selectedIndex, count, true, bounds, e) == 0
  {
    var r := (e.y as real - bounds.y - PADDING) / ITEM_HEIGHT;
    assert -1.0 < r < 1.0;
  }

  /** A click below the last row leaves the selection as it was. */
  lemma BelowLastRow(selectedIndex: int, count: nat, bounds: Rect, e: Event)
    requires e.y as real >= RowTop(bounds, count)
    ensures Select(selectedIndex, count, true, bounds, e) == selectedIndex
  {
    var r := (e.y as real - bounds.y - PADDING) / ITEM_HEIGHT;
    assert r >= count as real;
  }

  /** PropertyGrid::OnPaint: the background, then one pass over the rows with a running y. */
  method OnPaint(list: DrawList, visible: bool, bounds: Rect, items: seq<PropertyItem>, selectedIndex: int)
    modifies list
    ensures list.commands == old(list.commands) + Paint(visible, bounds, items, selectedIndex)
  {
    if !visible {
      return;
    }
    list.AddRect(bounds, BACKGROUND_COLOR);
    var y := bounds.y + PADDING;
    var i := 0;
    while i < |items|
      invariant 0 <= i <= |items|
      invariant y == RowTop(bounds, i)
      invariant list.commands
                == old(list.commands) + [Record(RectOp(bounds, BACKGROUND_COLOR))] + Rows(bounds, items, selectedIndex, i)
    {
      PaintRow(list, bounds, items[i], selectedIndex, i, y);
      ghost var before, rows, row := old(list.commands) + [Record(RectOp(bounds, BACKGROUND_COLOR))],
        Rows(bounds, items, selectedIndex, i), RowCommands(bounds, items[i], selectedIndex, i);
      assert before + rows + row == before + (rows + row);
      y := y + ITEM_HEIGHT;
      i := i + 1;
    }
  }

  /** The body of the row loop: row i's highlight when selected, its name and its value, at height y. */
  method PaintRow(list: DrawList, bounds: Rect, item: PropertyItem, selectedIndex: int, i: nat, y: real)
    requires y == RowTop(bounds, i)
    modifies list
    ensures list.commands == old(list.commands) + RowCommands(bounds, item, selectedIndex, i)
  {
    if i == selectedIndex {
      list.AddRect(Rect(bounds.x, y, bounds.width, ITEM_HEIGHT), SELECTION_COLOR);
    }
    list.AddText(item.name, bounds.x + PADDING, y + PADDING, NAME_COLOR);
    list.AddText(item.value, bounds.x + bounds.width / 2.0, y + PADDING, VALUE_COLOR);
  }
}
