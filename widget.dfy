// Widget: a node of the retained widget tree. The toolkit's subclasses Label, Button and
// PropertyGrid become a kind tag on one class; each kind's OnPaint/OnEvent is the
// corresponding branch below.

module Widgets {
  import opened DrawCommands
  import opened Events
  import Labels
  import Buttons
  import PropertyGrids
  import opened WidgetTree

  datatype Kind = Base | LabelKind | ButtonKind | PropertyGridKind

  class Widget {
    const kind: Kind
    var bounds: Rect
    var visible: bool
    var text: Text
    var children: seq<Widget>

    // Button state
    var pressed: bool
    var hasOnClick: bool
    /** Number of times the click callback has run. */
    ghost var clicks: nat

    // PropertyGrid state
    var items: seq<PropertyGrids.PropertyItem>
    var selectedIndex: int

    /** This widget and every widget of its subtree. */
    ghost var Repr: set<Widget>

    /**
     * The subtree is a tree: children's footprints are inside this one, exclude this
     * node and are pairwise disjoint; a property grid's selection is -1 or a row.
     */
    ghost predicate Valid()
      reads this, Repr
      decreases Repr
    {
      && this in Repr
      && (kind == PropertyGridKind ==> PropertyGrids.SelectionValid(selectedIndex, |items|))
      && (forall i :: 0 <= i < |children| ==>
            children[i] in Repr && children[i].Repr <= Repr && this !in children[i].Repr)
      && (forall i, j :: 0 <= i < j < |children| ==> children[i].Repr !! children[j].Repr)
      && (forall i :: 0 <= i < |children| ==> children[i].Valid())
    }

    ghost function Role(): WidgetTree.Role
      reads this
    {
      match kind
      case Base => Plain
      case LabelKind => WidgetTree.Label
      case ButtonKind => WidgetTree.Button(Buttons.ButtonState(pressed, hasOnClick, clicks))
      case PropertyGridKind => WidgetTree.PropertyGrid(items, selectedIndex)
    }

    /** The subtree as a value. */
    ghost function Value(): WidgetValue
      reads this, Repr
      requires Valid()
      decreases Repr, 1
    {
      WidgetValue(Role(), bounds, visible, text, ChildValues(|children|))
    }

    ghost function ChildValues(n: nat): (vs: seq<WidgetValue>)
      reads this, Repr
      requires Valid() && n <= |children|
      ensures |vs| == n
      ensures forall i :: 0 <= i < n ==> vs[i] == children[i].Value()
      decreases Repr, 0, n
    {
      if n == 0 then [] else ChildValues(n - 1) + [children[n - 1].Value()]
    }

    /** Widget(): visible, bounds (0, 0, 100, 100), no children, no text. */
    constructor ()
      ensures Valid() && fresh(Repr) && kind == Base
      ensures Value() == WidgetValue(Plain, Rect(0.0, 0.0, 100.0, 100.0), true, [], [])
    {
      kind := Base;
      bounds := Rect(0.0, 0.0, 100.0, 100.0);
      visible := true;
      text := [];
      children := [];
      pressed, hasOnClick, clicks := false, false, 0;
      items, selectedIndex := [], -1;
      Repr := {this};
    }

    /** Label(): a base widget that paints as a label. */
    constructor Label()
      ensures Valid() && fresh(Repr) && kind == LabelKind
      ensures Value() == WidgetValue(WidgetTree.Label, Rect(0.0, 0.0, 100.0, 100.0), true, [], [])
    {
      kind := LabelKind;
      bounds := Rect(0.0, 0.0, 100.0, 100.0);
      visible := true;
      text := [];
      children := [];
      pressed, hasOnClick, clicks := false, false, 0;
      items, selectedIndex := [], -1;
      Repr := {this};
    }

    /** Button(): not pressed, no click callback. */
    constructor Button()
      ensures Valid() && fresh(Repr) && kind == ButtonKind
      ensures Value() == WidgetValue(WidgetTree.Button(Buttons.INITIAL), Rect(0.0, 0.0, 100.0, 100.0), true, [], [])
    {
      kind := ButtonKind;
      bounds := Rect(0.0, 0.0, 100.0, 100.0);
      visible := true;
      text := [];
      children := [];
      pressed, hasOnClick, clicks := false, false, 0;
      items, selectedIndex := [], -1;
      Repr := {this};
    }

    /** PropertyGrid(): no items, no selection. */
    constructor PropertyGrid()
      ensures Valid() && fresh(Repr) && kind == PropertyGridKind
      ensures Value() == WidgetValue(WidgetTree.PropertyGrid([], -1), Rect(0.0, 0.0, 100.0, 100.0), true, [], [])
    {
      kind := PropertyGridKind;
      bounds := Rect(0.0, 0.0, 100.0, 100.0);
      visible := true;
      text := [];
      children := [];
      pressed, hasOnClick, clicks := false, false, 0;
      items, selectedIndex := [], -1;
      Repr := {this};
    }

    function GetBounds(): Rect
      reads this
    {
      bounds
    }

    function GetChildren(): seq<Widget>
      reads this
    {
      children
    }

    function IsVisible(): bool
      reads this
    {
      visible
    }

    function GetText(): Text
      reads this
    {
      text
    }

    method SetVisible(v: bool)
      modifies this`visible
      ensures IsVisible() == v
      ensures old(Valid()) ==> Valid() && Value() == old(Value()).(visible := v)
    {
      visible := v;
      if old(Valid()) {
        OwnFieldsChanged();
      }
    }

    method SetText(t: Text)
      modifies this`text
      ensures GetText() == t
      ensures old(Valid()) ==> Valid() && Value() == old(Value()).(text := t)
    {
      text := t;
      if old(Valid()) {
        OwnFieldsChanged();
      }
    }

    /** Replaces this widget's bounds only; children keep theirs. */
    method SetBounds(r: Rect)
      modifies this`bounds
      ensures GetBounds() == r
      ensures old(Valid()) ==> Valid() && Value() == old(Value()).(bounds := r)
    {
      bounds := r;
      if old(Valid()) {
        OwnFieldsChanged();
      }
    }

    /** When only this node's own fields changed, its children's values did not. */
    twostate lemma OwnFieldsChanged()
      requires old(Valid())
      requires unchanged(old(Repr) - {this})
      requires children == old(children) && Repr == old(Repr)
      requires kind == PropertyGridKind ==> PropertyGrids.SelectionValid(selectedIndex, |items|)
      ensures Valid()
      ensures Value() == WidgetValue(Role(), bounds, visible, text, old(Value()).children)
    {
      forall i | 0 <= i < |children|
        ensures children[i].Valid() && children[i].Value() == old(children[i].Value())
      {
        children[i].Untouched();
      }
    }

    /** Appends child after the existing children, which keep their order. */
    method AddChild(child: Widget)
      requires Valid() && child.Valid() && Repr !! child.Repr
      modifies this
      ensures Valid()
      ensures GetChildren() == old(GetChildren()) + [child]
      ensures Repr == old(Repr) + child.Repr
      ensures Value() == old(Value()).(children := old(Value()).children + [child.Value()])
    {
      children := children + [child];
      Repr := Repr + child.Repr;
      ChildrenUntouched(child);
      AddedChildValid(child);
      AddedChildValue(child);
    }

    /** The subtrees below this node, old and new, are not touched by AddChild. */
    twostate lemma ChildrenUntouched(child: Widget)
      requires old(Valid()) && old(child.Valid()) && old(Repr !! child.Repr)
      requires children == old(children) + [child]
      requires unchanged(old(Repr) - {this}) && unchanged(old(child.Repr))
      ensures forall i :: 0 <= i < |children| - 1 ==>
                children[i].Valid() && children[i].Repr == old(children[i].Repr)
                && children[i].Value() == old(children[i].Value())
      ensures child.Valid() && child.Repr == old(child.Repr) && child.Value() == old(child.Value())
    {
      forall i | 0 <= i < |children| - 1
        ensures children[i].Valid() && children[i].Repr == old(children[i].Repr)
        ensures children[i].Value() == old(children[i].Value())
      {
        children[i].Untouched();
      }
      child.Untouched();
    }

    /** Adding a disjoint valid subtree keeps the tree invariant. */
    twostate lemma AddedChildValid(child: Widget)
      requires old(Valid()) && old(Repr !! child.Repr)
      requires children == old(children) + [child] && Repr == old(Repr) + child.Repr
      requires items == old(items) && selectedIndex == old(selectedIndex)
      requires forall i :: 0 <= i < |children| - 1 ==>
                 children[i].Valid() && children[i].Repr == old(children[i].Repr)
      requires child.Valid() && child.Repr == old(child.Repr)
      ensures Valid()
    {
    }

    /** The value after AddChild: the old value with child's value appended to its children. */
    twostate lemma AddedChildValue(child: Widget)
      requires old(Valid()) && Valid() && child.Valid()
      requires children == old(children) + [child]
      requires bounds == old(bounds) && visible == old(visible) && text == old(text)
      requires pressed == old(pressed) && hasOnClick == old(hasOnClick) && clicks == old(clicks)
      requires items == old(items) && selectedIndex == old(selectedIndex)
      requires forall i :: 0 <= i < |children| - 1 ==> children[i].Value() == old(children[i].Value())
      ensures Value() == old(Value()).(children := old(Value()).children + [child.Value()])
    {
      assert ChildValues(|children| - 1) == old(ChildValues(|children|));
    }

    /** Button::SetOnClick; present stands for a non-null callback. */
    method SetOnClick(present: bool)
      requires kind == ButtonKind
      modifies this`hasOnClick
      ensures hasOnClick == present
      ensures old(Valid()) ==> Valid() && Value() == old(Value()).(role := WidgetTree.Button(old(Role()).button.(hasOnClick := present)))
    {
      hasOnClick := present;
      if old(Valid()) {
        OwnFieldsChanged();
      }
    }

    /** PropertyGrid::AddProperty: one more row at the end; the selection is kept. */
    method AddProperty(name: Text, value: Text, itemType: Text := PropertyGrids.STRING_TYPE)
      requires kind == PropertyGridKind
      modifies this`items
      ensures items == old(items) + [PropertyGrids.PropertyItem(name, value, itemType)]
      ensures old(Valid()) ==> Valid() && Value() == old(Value()).(role := WidgetTree.PropertyGrid(items, selectedIndex))
    {
      items := items + [PropertyGrids.PropertyItem(name, value, itemType)];
      if old(Valid()) {
        OwnFieldsChanged();
      }
    }

    /** PropertyGrid::Clear: no rows and no selection. */
    method Clear()
      requires kind == PropertyGridKind
      modifies this`items, this`selectedIndex
      ensures items == [] && selectedIndex == -1
      ensures old(Valid()) ==> Valid() && Value() == old(Value()).(role := WidgetTree.PropertyGrid([], -1))
    {
      items := [];
      selectedIndex := -1;
      if old(Valid()) {
        OwnFieldsChanged();
      }
    }

    /** OnPaint: appends this subtree's commands to the caller's list; the tree is not changed. */
    method OnPaint(list: DrawList)
      requires Valid()
      modifies list
      ensures list.commands == old(list.commands) + PaintTree(old(Value()))
      decreases Repr, 1
    {
      match kind
      case Base =>
        if visible {
          list.AddRect(bounds, BORDER_COLOR);
          PaintChildren(list);
          ghost var border, rest := [Record(RectOp(bounds, BORDER_COLOR))], PaintAll(old(ChildValues(|children|)));
          assert old(list.commands) + border + rest == old(list.commands) + (border + rest);
        }
      case LabelKind =>
        Labels.OnPaint(list, visible, text, bounds);
      case ButtonKind =>
        Buttons.OnPaint(list, visible, pressed, text, bounds);
      case PropertyGridKind =>
        PropertyGrids.OnPaint(list, visible, bounds, items, selectedIndex);
    }

    /** The base widget's loop: every child paints into the same list, in insertion order. */
    method PaintChildren(list: DrawList)
      requires Valid()
      modifies list
      ensures list.commands == old(list.commands) + PaintAll(old(ChildValues(|children|)))
      decreases Repr, 0
    {
      ghost var vs := ChildValues(|children|);
      var i := 0;
      while i < |children|
        invariant 0 <= i <= |children|
        invariant list.commands == old(list.commands) + PaintAll(vs[..i])
      {
        children[i].OnPaint(list);
        PaintAllSnoc(old(list.commands), vs, i);
        i := i + 1;
      }
      assert vs[..i] == vs;
    }

    /** OnEvent: the base widget and Label forward e to every child; Button and PropertyGrid react. */
    method OnEvent(e: Event)
      requires Valid()
      modifies Repr
      ensures Valid() && Repr == old(Repr)
      ensures Value() == Dispatch(old(Value()), e)
      decreases Repr, 2
    {
      match kind
      case ButtonKind =>
        ButtonEvent(e);
      case PropertyGridKind =>
        GridEvent(e);
      case _ =>
        ghost var v := Value();
        DispatchChildren(e);
        assert Dispatch(v, e) == v.(children := DispatchAll(v.children, e));
        assert Value() == v.(children := ChildValues(|children|));
    }

    /** Button::OnEvent: press on a mouse-down inside, release (and click if pressed) on a mouse-up. */
    method ButtonEvent(e: Event)
      requires Valid() && kind == ButtonKind
      modifies this`pressed, this`clicks
      ensures Valid() && Value() == Dispatch(old(Value()), e)
    {
      ghost var s := Buttons.ButtonState(pressed, hasOnClick, clicks);
      if visible {
        if e.kind == MouseDown {
          if Contains(bounds, e.x as real, e.y as real) {
            pressed := true;
          }
        } else if e.kind == MouseUp {
          if pressed && hasOnClick {
            clicks := clicks + 1;
          }
          pressed := false;
        }
      }
      OwnFieldsChanged();
      assert Role() == WidgetTree.Button(Buttons.Step(s, visible, bounds, e));
    }

    /** PropertyGrid::OnEvent: a mouse-down inside selects the row under it, if there is one. */
    method GridEvent(e: Event)
      requires Valid() && kind == PropertyGridKind
      modifies this`selectedIndex
      ensures Valid() && Value() == Dispatch(old(Value()), e)
    {
      if visible && e.kind == MouseDown {
        var mx, my := e.x as real, e.y as real;
        if Contains(bounds, mx, my) {
          var index := PropertyGrids.Trunc((my - bounds.y - PropertyGrids.PADDING) / PropertyGrids.ITEM_HEIGHT);
          if 0 <= index < |items| {
            selectedIndex := index;
          }
        }
      }
      OwnFieldsChanged();
      assert selectedIndex == PropertyGrids.Select(old(selectedIndex), |items|, visible, bounds, e);
    }

    /** A subtree none of whose objects changed keeps its invariant and its value. */
    twostate lemma Untouched()
      requires old(Valid()) && unchanged(old(Repr))
      ensures Valid() && Repr == old(Repr) && Value() == old(Value())
    {
    }

    /** The forwarding loop of the base widget and Label: each child in turn receives e. */
    method DispatchChildren(e: Event)
      requires Valid()
      modifies Repr - {this}
      ensures Valid()
      ensures ChildValues(|children|) == DispatchAll(old(ChildValues(|children|)), e)
      decreases Repr, 1
    {
      ghost var vs := ChildValues(|children|);
      var i := 0;
      while i < |children|
        invariant 0 <= i <= |children| && Valid()
        invariant forall j :: 0 <= j < |children| ==>
                    children[j].Value() == if j < i then Dispatch(vs[j], e) else vs[j]
      {
        DispatchChild(i, e);
        i := i + 1;
      }
      DispatchAllPointwise(ChildValues(|children|), vs, e);
    }

    /** One step of the forwarding loop: child i handles e and its siblings' subtrees are untouched. */
    method DispatchChild(i: nat, e: Event)
      requires Valid() && i < |children|
      modifies children[i].Repr
      ensures Valid()
      ensures children[i].Value() == Dispatch(old(children[i].Value()), e)
      ensures forall j :: 0 <= j < |children| && j != i ==> children[j].Value() == old(children[j].Value())
      decreases Repr, 0
    {
      children[i].OnEvent(e);
      SiblingsUntouched(i);
      ChildReplacedValid(i);
    }

    /** While child i's subtree changes, every sibling's subtree stays as it was. */
    twostate lemma SiblingsUntouched(i: nat)
      requires old(Valid()) && i < |children| && children == old(children)
      requires unchanged(old(Repr) - old(children[i].Repr))
      ensures forall j :: 0 <= j < |children| && j != i ==>
                children[j].Valid() && children[j].Repr == old(children[j].Repr)
                && children[j].Value() == old(children[j].Value())
    {
      forall j | 0 <= j < |children| && j != i
        ensures children[j].Valid() && children[j].Repr == old(children[j].Repr)
        ensures children[j].Value() == old(children[j].Value())
      {
        children[j].Untouched();
      }
    }

    /** Child subtrees that keep their footprints and stay valid keep this node valid. */
    twostate lemma ChildReplacedValid(i: nat)
      requires old(Valid()) && i < |children|
      requires children == old(children) && Repr == old(Repr)
      requires items == old(items) && selectedIndex == old(selectedIndex)
      requires forall j :: 0 <= j < |children| ==> children[j].Valid() && children[j].Repr == old(children[j].Repr)
      ensures Valid()
    {
    }
  }
}
