// Layout: splits a rectangle into equal slots along one axis, 5 units apart, and assigns
// them to its widgets in list order.

module Layouts {
  import opened DrawCommands
  import Widgets

  datatype LayoutType = Vertical | Horizontal | Grid

  /** The gap between two neighbouring slots. */
  const SPACING: real := 5.0

  /** The length of each of n equal slots that, with n - 1 gaps between them, fill total. */
  function ItemSize(total: real, n: nat): real
    requires n > 0
  {
    (total - SPACING * ((n - 1) as real)) / (n as real)
  }

  /** The bounds DoLayout gives the k-th of n widgets. */
  function Slot(t: LayoutType, bounds: Rect, n: nat, k: nat): Rect
    requires n > 0 && t != Grid
  {
    match t
    case Vertical =>
      var h := ItemSize(bounds.height, n);
      Rect(bounds.x, bounds.y + (k as real) * (h + SPACING), bounds.width, h)
    case Horizontal =>
      var w := ItemSize(bounds.width, n);
      Rect(bounds.x + (k as real) * (w + SPACING), bounds.y, w, bounds.height)
  }

  /** Exchanges the roles of the two axes. */
  function Transpose(r: Rect): Rect
  {
    Rect(r.y, r.x, r.height, r.width)
  }

  /** n slots and n - 1 gaps add up to the whole length: n * ItemSize(total, n) + 5(n - 1) == total. */
  lemma ItemSizeFills(total: real, n: nat)
    requires n > 0
    ensures (n as real) * ItemSize(total, n) + SPACING * ((n - 1) as real) == total
  {
    var rest := total - SPACING * ((n - 1) as real);
    assert (n as real) * (rest / (n as real)) == rest;
  }

  /**
   * Vertical slots fill the bounds exactly: they keep the left edge and the width, the first
   * starts at the top, each next one starts 5 below the previous bottom edge, and the last
   * one ends at the bottom edge.
   */
  lemma VerticalTiles(bounds: Rect, n: nat)
    requires n > 0
    ensures forall k :: 0 <= k < n ==>
              Slot(Vertical, bounds, n, k).x == bounds.x && Slot(Vertical, bounds, n, k).width == bounds.width
    ensures Slot(Vertical, bounds, n, 0).y == bounds.y
    ensures forall k :: 0 <= k < n - 1 ==>
              Slot(Vertical, bounds, n, k + 1).y
              == Slot(Vertical, bounds, n, k).y + Slot(Vertical, bounds, n, k).height + SPACING
    ensures Slot(Vertical, bounds, n, n - 1).y + Slot(Vertical, bounds, n, n - 1).height == bounds.y + bounds.height
  {
    var h := ItemSize(bounds.height, n);
    forall k | 0 <= k < n - 1
      ensures Slot(Vertical, bounds, n, k + 1).y
              == Slot(Vertical, bounds, n, k).y + Slot(Vertical, bounds, n, k).height + SPACING
    {
      SlotStep(Vertical, bounds, n, k);
    }
    ItemSizeFills(bounds.height, n);
    assert ((n - 1) as real) * (h + SPACING) + h == (n as real) * h + SPACING * ((n - 1) as real);
  }

  /** Each slot starts 5 past the far edge of the one before it, along the layout's axis. */
  lemma SlotStep(t: LayoutType, bounds: Rect, n: nat, k: nat)
    requires n > 0 && t != Grid
    ensures t == Vertical ==>
              Slot(t, bounds, n, k + 1).y == Slot(t, bounds, n, k).y + Slot(t, bounds, n, k).height + SPACING
    ensures t == Horizontal ==>
              Slot(t, bounds, n, k + 1).x == Slot(t, bounds, n, k).x + Slot(t, bounds, n, k).width + SPACING
  {
    var s := if t == Vertical then ItemSize(bounds.height, n) else ItemSize(bounds.width, n);
    assert ((k + 1) as real) * (s + SPACING) == (k as real) * (s + SPACING) + (s + SPACING);
  }

  /** A single widget gets exactly the bounds it is laid out in, whichever the axis. */
  lemma SingleSlot(t: LayoutType, bounds: Rect)
    requires t != Grid
    ensures Slot(t, bounds, 1, 0) == bounds
  {
  }

  /** The horizontal layout is the vertical one with the axes exchanged. */
  lemma HorizontalIsTranspose(bounds: Rect, n: nat, k: nat)
    requires n > 0
    ensures Slot(Horizontal, bounds, n, k) == Transpose(Slot(Vertical, Transpose(bounds), n, k))
  {
  }

  /** No widget after position k and before position i is the widget at k. */
  ghost predicate NotRepeated(ws: seq<Widgets.Widget>, k: nat, i: nat)
    requires k < i <= |ws|
  {
    forall j :: k < j < i ==> ws[j] != ws[k]
  }

  /** Running to the end of the list, NotRepeated says the k-th widget is its last occurrence. */
  lemma NotRepeatedToEnd(ws: seq<Widgets.Widget>)
    ensures forall k :: 0 <= k < |ws| && ws[k] !in ws[k + 1..] ==> NotRepeated(ws, k, |ws|)
  {
    forall k | 0 <= k < |ws| && ws[k] !in ws[k + 1..]
      ensures NotRepeated(ws, k, |ws|)
    {
      forall j | k < j < |ws|
        ensures ws[j] != ws[k]
      {
        assert ws[j] == ws[k + 1..][j - k - 1];
      }
    }
  }

  class Layout {
    const layoutType: LayoutType
    /** spacing_, fixed at 5 by the constructor: the gap SPACING of the slots. */
    const spacing: int := 5
    var widgets: seq<Widgets.Widget>

    constructor (t: LayoutType)
      ensures layoutType == t && widgets == []
      ensures spacing as real == SPACING
    {
      layoutType := t;
      widgets := [];
    }

    /** Appends w to the widgets to lay out; the same widget may be added twice. */
    method AddWidget(w: Widgets.Widget)
      modifies this`widgets
      ensures widgets == old(widgets) + [w]
    {
      widgets := widgets + [w];
    }

    /**
     * Gives every widget its slot, in list order, and changes nothing but bounds. A widget
     * listed more than once keeps the slot of its last occurrence. Grid layouts and empty
     * layouts change nothing.
     */
    method DoLayout(bounds: Rect)
      modifies (set w <- widgets)`bounds
      ensures layoutType == Grid || widgets == [] ==> forall w <- widgets :: w.bounds == old(w.bounds)
      ensures layoutType != Grid && widgets != [] ==>
                forall k :: 0 <= k < |widgets| && widgets[k] !in widgets[k + 1..] ==>
                  widgets[k].bounds == Slot(layoutType, bounds, |widgets|, k)
    {
      if widgets == [] {
        return;
      }
      if layoutType == Vertical {
        LayOutVertically(bounds);
      } else if layoutType == Horizontal {
        LayOutHorizontally(bounds);
      }
    }

    /** widgets[i]->SetBounds(r), seen from the layout: only that widget's bounds change. */
    method Place(i: nat, r: Rect)
      requires i < |widgets|
      modifies {widgets[i]}`bounds
      ensures widgets[i].bounds == r
    {
      widgets[i].SetBounds(r);
    }

    /** DoLayout's vertical branch: equal heights, running y, 5 apart. */
    method LayOutVertically(bounds: Rect)
      requires widgets != []
      modifies (set w <- widgets)`bounds
      ensures forall k :: 0 <= k < |widgets| && widgets[k] !in widgets[k + 1..] ==>
                widgets[k].bounds == Slot(Vertical, bounds, |widgets|, k)
    {
      var n := |widgets|;
      var itemHeight := (bounds.height - (spacing * (n - 1)) as real) / (n as real);
      assert itemHeight == ItemSize(bounds.height, n);
      var y := bounds.y;
      var i := 0;
      while i < n
        invariant 0 <= i <= n
        invariant y == Slot(Vertical, bounds, n, i).y
        invariant forall k :: 0 <= k < i && NotRepeated(widgets, k, i) ==>
                    widgets[k].bounds == Slot(Vertical, bounds, n, k)
      {
        Place(i, Rect(bounds.x, y, bounds.width, itemHeight));
        forall k | 0 <= k < i + 1 && NotRepeated(widgets, k, i + 1)
          ensures widgets[k].bounds == Slot(Vertical, bounds, n, k)
        {
          if k < i {
            assert NotRepeated(widgets, k, i) && widgets[i] != widgets[k];
          }
        }
        SlotStep(Vertical, bounds, n, i);
        y := y + itemHeight + spacing as real;
        i := i + 1;
      }
      NotRepeatedToEnd(widgets);
    }

    /** DoLayout's horizontal branch: equal widths, running x, 5 apart. */
    method LayOutHorizontally(bounds: Rect)
      requires widgets != []
      modifies (set w <- widgets)`bounds
      ensures forall k :: 0 <= k < |widgets| && widgets[k] !in widgets[k + 1..] ==>
                widgets[k].bounds == Slot(Horizontal, bounds, |widgets|, k)
    {
      var n := |widgets|;
      var itemWidth := (bounds.width - (spacing * (n - 1)) as real) / (n as real);
      assert itemWidth == ItemSize(bounds.width, n);
      var x := bounds.x;
      var i := 0;
      while i < n
        invariant 0 <= i <= n
        invariant x == Slot(Horizontal, bounds, n, i).x
        invariant forall k :: 0 <= k < i && NotRepeated(widgets, k, i) ==>
                    widgets[k].bounds == Slot(Horizontal, bounds, n, k)
      {
        Place(i, Rect(x, bounds.y, itemWidth, bounds.height));
        forall k | 0 <= k < i + 1 && NotRepeated(widgets, k, i + 1)
          ensures widgets[k].bounds == Slot(Horizontal, bounds, n, k)
        {
          if k < i {
            assert NotRepeated(widgets, k, i) && widgets[i] != widgets[k];
          }
        }
        SlotStep(Horizontal, bounds, n, i);
        x := x + itemWidth + spacing as real;
        i := i + 1;
      }
      NotRepeatedToEnd(widgets);
    }
  }
}
