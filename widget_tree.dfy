// The widget tree as a value: what painting a tree appends and what delivering an
// event to it changes. The Widget class is proved against these definitions.

module WidgetTree {
  import opened DrawCommands
  import opened Events
  import Labels
  import Buttons
  import PropertyGrids

  /** Which OnPaint/OnEvent a node runs, with the state only that kind has. */
  datatype Role =
    | Plain
    | Label
    | Button(button: Buttons.ButtonState)
    | PropertyGrid(items: seq<PropertyGrids.PropertyItem>, selectedIndex: int)

  datatype WidgetValue = WidgetValue(role: Role, bounds: Rect, visible: bool, text: Text, children: seq<WidgetValue>)

  /** The colour of the border rectangle the base widget paints. */
  const BORDER_COLOR := Color(0.5, 0.5, 0.5, 1.0)

  /** The commands OnPaint appends for a node and, for the base widget, its subtree. */
  function PaintTree(w: WidgetValue): seq<DrawCommand>
    decreases w
  {
    match w.role
    case Plain => if !w.visible then [] else [Record(RectOp(w.bounds, BORDER_COLOR))] + PaintAll(w.children)
    case Label => Labels.Paint(w.visible, w.text, w.bounds)
    case Button(s) => Buttons.Paint(w.visible, s.pressed, w.text, w.bounds)
    case PropertyGrid(items, selected) => PropertyGrids.Paint(w.visible, w.bounds, items, selected)
  }

  /** The commands of a sequence of siblings, painted in insertion order. */
  function PaintAll(ws: seq<WidgetValue>): seq<DrawCommand>
    decreases ws
  {
    if ws == [] then [] else PaintAll(ws[..|ws| - 1]) + PaintTree(ws[|ws| - 1])
  }

  /** The node after OnEvent(e) has run on it and, where it forwards, on its subtree. */
  function Dispatch(w: WidgetValue, e: Event): WidgetValue
    decreases w
  {
    match w.role
    case Plain => w.(children := DispatchAll(w.children, e))
    case Label => w.(children := DispatchAll(w.children, e))
    case Button(s) => w.(role := Button(Buttons.Step(s, w.visible, w.bounds, e)))
    case PropertyGrid(items, selected) =>
      w.(role := PropertyGrid(items, PropertyGrids.Select(selected, |items|, w.visible, w.bounds, e)))
  }

  /** Every sibling receives the same event, in insertion order. */
  function DispatchAll(ws: seq<WidgetValue>, e: Event): (rs: seq<WidgetValue>)
    decreases ws
    ensures |rs| == |ws|
    ensures forall i :: 0 <= i < |ws| ==> rs[i] == Dispatch(ws[i], e)
  {
    if ws == [] then [] else DispatchAll(ws[..|ws| - 1], e) + [Dispatch(ws[|ws| - 1], e)]
  }

  /** DispatchAll is determined pointwise. */
  lemma DispatchAllPointwise(rs: seq<WidgetValue>, ws: seq<WidgetValue>, e: Event)
    requires |rs| == |ws|
    requires forall i :: 0 <= i < |ws| ==> rs[i] == Dispatch(ws[i], e)
    ensures rs == DispatchAll(ws, e)
  {
  }

  /** Invisibility is absorbing for painting: an invisible node paints nothing, nor does its subtree. */
  lemma PaintInvisible(w: WidgetValue)
    requires !w.visible
    ensures PaintTree(w) == []
  {
  }

  /** Painting one more sibling extends what the earlier siblings appended to any prefix. */
  lemma PaintAllSnoc(pre: seq<DrawCommand>, xs: seq<WidgetValue>, i: nat)
    requires i < |xs|
    ensures pre + PaintAll(xs[..i]) + PaintTree(xs[i]) == pre + PaintAll(xs[..i + 1])
  {
    assert xs[..i + 1][..i] == xs[..i];
  }

  /** Siblings paint as consecutive blocks: painting xs then ys is painting xs + ys. */
  lemma {:induction false} PaintAllAppend(xs: seq<WidgetValue>, ys: seq<WidgetValue>)
    ensures PaintAll(xs + ys) == PaintAll(xs) + PaintAll(ys)
    decreases |ys|
  {
    if ys == [] {
      assert xs + ys == xs;
    } else {
      var last := ys[|ys| - 1];
      var front := ys[..|ys| - 1];
      assert (xs + ys)[..|xs + ys| - 1] == xs + front;
      assert (xs + ys)[|xs + ys| - 1] == last;
      PaintAllAppend(xs, front);
      assert PaintAll(xs) + PaintAll(front) + PaintTree(last) == PaintAll(xs) + (PaintAll(front) + PaintTree(last));
    }
  }

  /**
   * Pre-order: a visible base widget appends its own border first and then the block
   * of each child, the first child's block before the second's.
   */
  lemma PaintPreOrder(w: WidgetValue, i: nat)
    requires w.role == Plain && w.visible && i < |w.children|
    ensures PaintTree(w)
         == [Record(RectOp(w.bounds, BORDER_COLOR))]
            + PaintAll(w.children[..i]) + PaintTree(w.children[i]) + PaintAll(w.children[i + 1..])
  {
    var cs := w.children;
    assert cs == cs[..i] + [cs[i]] + cs[i + 1..];
    PaintAllAppend(cs[..i] + [cs[i]], cs[i + 1..]);
    assert PaintAll(cs[..i] + [cs[i]]) == PaintAll(cs[..i]) + PaintTree(cs[i]) by {
      assert (cs[..i] + [cs[i]])[..i] == cs[..i];
    }
  }

  /** Only base widgets, all the way down. */
  predicate AllPlain(w: WidgetValue)
    decreases w
  {
    w.role == Plain && forall c <- w.children :: AllPlain(c)
  }

  /** The number of nodes that are visible together with all their ancestors. */
  function ShownNodes(w: WidgetValue): nat
    decreases w
  {
    if !w.visible then 0 else 1 + ShownAll(w.children)
  }

  function ShownAll(ws: seq<WidgetValue>): nat
    decreases ws
  {
    if ws == [] then 0 else ShownAll(ws[..|ws| - 1]) + ShownNodes(ws[|ws| - 1])
  }

  /** In a tree of base widgets, one border is painted per node that is shown. */
  lemma {:induction false} PaintCount(w: WidgetValue)
    requires AllPlain(w)
    ensures |PaintTree(w)| == ShownNodes(w)
    decreases w, 1
  {
    if w.visible {
      PaintAllCount(w.children);
    }
  }

  lemma {:induction false} PaintAllCount(ws: seq<WidgetValue>)
    requires forall c <- ws :: AllPlain(c)
    ensures |PaintAll(ws)| == ShownAll(ws)
    decreases ws, 0
  {
    if ws != [] {
      PaintAllCount(ws[..|ws| - 1]);
      PaintCount(ws[|ws| - 1]);
    }
  }

  /** A tree of base widgets paints nothing but rectangles. */
  lemma {:induction false} PlainPaintsRects(w: WidgetValue)
    requires AllPlain(w)
    ensures forall c <- PaintTree(w) :: c.kind == DrawRect
    decreases w, 1
  {
    if w.visible {
      PlainPaintsRectsAll(w.children);
    }
  }

  lemma {:induction false} PlainPaintsRectsAll(ws: seq<WidgetValue>)
    requires forall c <- ws :: AllPlain(c)
    ensures forall c <- PaintAll(ws) :: c.kind == DrawRect
    decreases ws, 0
  {
    if ws != [] {
      PlainPaintsRectsAll(ws[..|ws| - 1]);
      PlainPaintsRects(ws[|ws| - 1]);
    }
  }

  /**
   * Delivery ignores the receiver's own visibility: a hidden base widget or label still
   * forwards the event to all its children. Buttons and grids never forward.
   */
  lemma ForwardingIgnoresVisibility(w: WidgetValue, e: Event)
    ensures (w.role == Plain || w.role == Label) ==>
              Dispatch(w, e).children == DispatchAll(w.children, e)
              && Dispatch(w.(visible := !w.visible), e).children == Dispatch(w, e).children
    ensures (w.role.Button? || w.role.PropertyGrid?) ==> Dispatch(w, e).children == w.children
    ensures (w.role.Button? || w.role.PropertyGrid?) && !w.visible ==> Dispatch(w, e) == w
  {
  }

  /** Two trees that differ at most in button and grid state. */
  predicate SameLayout(a: WidgetValue, b: WidgetValue)
    decreases a
  {
    && a.bounds == b.bounds && a.visible == b.visible && a.text == b.text
    && a.role.Plain? == b.role.Plain? && a.role.Label? == b.role.Label?
    && a.role.Button? == b.role.Button? && a.role.PropertyGrid? == b.role.PropertyGrid?
    && (a.role.Button? ==> a.role.button.hasOnClick == b.role.button.hasOnClick)
    && (a.role.PropertyGrid? ==> a.role.items == b.role.items)
    && |a.children| == |b.children|
    && forall i :: 0 <= i < |a.children| ==> SameLayout(a.children[i], b.children[i])
  }

  /**
   * Events change only button press/click state and grid selections: never bounds,
   * visibility, text, items, callbacks or the shape of the tree.
   */
  lemma {:induction false} DispatchKeepsLayout(w: WidgetValue, e: Event)
    ensures SameLayout(Dispatch(w, e), w)
    decreases w
  {
    var d := Dispatch(w, e);
    forall i | 0 <= i < |w.children|
      ensures SameLayout(d.children[i], w.children[i])
    {
      if w.role.Plain? || w.role.Label? {
        DispatchKeepsLayout(w.children[i], e);
      } else {
        SameLayoutReflexive(w.children[i]);
      }
    }
  }

  lemma {:induction false} SameLayoutReflexive(w: WidgetValue)
    ensures SameLayout(w, w)
    decreases w
  {
    forall i | 0 <= i < |w.children|
      ensures SameLayout(w.children[i], w.children[i])
    {
      SameLayoutReflexive(w.children[i]);
    }
  }

  /** Every property grid in the tree has a selection that is -1 or a row index. */
  predicate SelectionsValid(w: WidgetValue)
    decreases w
  {
    && (w.role.PropertyGrid? ==> PropertyGrids.SelectionValid(w.role.selectedIndex, |w.role.items|))
    && forall c <- w.children :: SelectionsValid(c)
  }

  /** Delivering an event keeps every grid's selection valid. */
  lemma {:induction false} DispatchKeepsSelections(w: WidgetValue, e: Event)
    requires SelectionsValid(w)
    ensures SelectionsValid(Dispatch(w, e))
    decreases w
  {
    var d := Dispatch(w, e);
    if w.role.PropertyGrid? {
      PropertyGrids.SelectCases(w.role.selectedIndex, |w.role.items|, w.visible, w.bounds, e);
    }
    forall c <- d.children
      ensures SelectionsValid(c)
    {
      if w.role.Plain? || w.role.Label? {
        var i :| 0 <= i < |d.children| && d.children[i] == c;
        DispatchKeepsSelections(w.children[i], e);
      }
    }
  }
}
