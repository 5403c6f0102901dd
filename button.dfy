// Button: a pressed/click state machine with an inclusive bounds hit test.

module Buttons {
  import opened DrawCommands
  import opened Events

  const PRESSED_COLOR := Color(0.4, 0.4, 0.4, 1.0)
  const RELEASED_COLOR := Color(0.6, 0.6, 0.6, 1.0)
  const TEXT_COLOR := Color(1.0, 1.0, 1.0, 1.0)

  /**
   * The button's own state: whether it is held down, whether a click callback is set,
   * and how many times the callback has run (the callback itself is not modelled).
   */
  datatype ButtonState = ButtonState(pressed: bool, hasOnClick: bool, clicks: nat)

  /** A new button: not pressed, no callback. */
  const INITIAL := ButtonState(false, false, 0)

  /** What Button::OnPaint appends: its background, then its text centred, if any. */
  function Paint(visible: bool, pressed: bool, text: Text, bounds: Rect): seq<DrawCommand>
  {
    if !visible then []
    else
      [Record(RectOp(bounds, if pressed then PRESSED_COLOR else RELEASED_COLOR))]
      + if text == [] then []
        else [Record(TextOp(text, bounds.x + bounds.width / 2.0, bounds.y + bounds.height / 2.0, TEXT_COLOR))]
  }

  /** Button::OnEvent on the button's own state; a button never forwards events to children. */
  function Step(s: ButtonState, visible: bool, bounds: Rect, e: Event): ButtonState
  {
    if !visible then s
    else if e.kind == MouseDown then
      if Contains(bounds, e.x as real, e.y as real) then s.(pressed := true) else s
    else if e.kind == MouseUp then
      s.(pressed := false, clicks := if s.pressed && s.hasOnClick then s.clicks + 1 else s.clicks)
    else s
  }

  /** A visible button paints one rectangle in the pressed or released grey, then text iff it has some. */
  lemma PaintShape(visible: bool, pressed: bool, text: Text, bounds: Rect)
    ensures !visible ==> Paint(visible, pressed, text, bounds) == []
    ensures visible ==> |Paint(visible, pressed, text, bounds)| == (if text == [] then 1 else 2)
    ensures visible ==> (
              && Paint(visible, pressed, text, bounds)[0].kind == DrawRect
              && Paint(visible, pressed, text, bounds)[0].rect == bounds
              && Paint(visible, pressed, text, bounds)[0].color == (if pressed then PRESSED_COLOR else RELEASED_COLOR))
    ensures visible && text != [] ==>
              Paint(visible, pressed, text, bounds)[1]
              == Record(TextOp(text, bounds.x + bounds.width / 2.0, bounds.y + bounds.height / 2.0, TEXT_COLOR))
  {
  }

  /**
   * The transitions: an invisible button ignores every event; a mouse-down presses it
   * exactly when the point lies inside its bounds, edges included; a mouse-up always
   * releases it and runs the callback once iff it was pressed and a callback is set;
   * any other event changes nothing. The callback presence is never changed by events.
   */
  lemma StepCases(s: ButtonState, visible: bool, bounds: Rect, e: Event)
    ensures var t := Step(s, visible, bounds, e);
      && t.hasOnClick == s.hasOnClick
      && (!visible ==> t == s)
      && (visible && e.kind == MouseDown ==>
            t.clicks == s.clicks && t.pressed == (s.pressed || Contains(bounds, e.x as real, e.y as real)))
      && (visible && e.kind == MouseUp ==>
            !t.pressed && t.clicks == s.clicks + (if s.pressed && s.hasOnClick then 1 else 0))
      && (e.kind != MouseDown && e.kind != MouseUp ==> t == s)
  {
  }

  /**
   * A full click: pressing inside a visible button and releasing anywhere (the release
   * is not hit-tested) runs the callback exactly once, if one is set, and leaves the
   * button released.
   */
  lemma {:induction false} PressRelease(s: ButtonState, bounds: Rect, down: Event, up: Event)
    requires down.kind == MouseDown && Contains(bounds, down.x as real, down.y as real)
    requires up.kind == MouseUp
    ensures var t := Step(Step(s, true, bounds, down), true, bounds, up);
      !t.pressed && t.clicks == s.clicks + (if s.hasOnClick then 1 else 0)
  {
  }

  /** A release with no press before it never clicks: clicks only follow a mouse-down inside. */
  lemma ReleaseWithoutPress(s: ButtonState, visible: bool, bounds: Rect, e: Event)
    requires !s.pressed
    ensures Step(s, visible, bounds, e).clicks == s.clicks
  {
  }

  /** Button::OnPaint. */
  method OnPaint(list: DrawList, visible: bool, pressed: bool, text: Text, bounds: Rect)
    modifies list
    ensures list.commands == old(list.commands) + Paint(visible, pressed, text, bounds)
  {
    if !visible {
      return;
    }
    var background := if pressed then PRESSED_COLOR else RELEASED_COLOR;
    list.AddRect(bounds, background);
    if text != [] {
      var centerX := bounds.x + bounds.width / 2.0;
      var centerY := bounds.y + bounds.height / 2.0;
      list.AddText(text, centerX, centerY, TEXT_COLOR);
    }
  }
}
