// Label: a widget that paints its text and nothing else.

module Labels {
  import opened DrawCommands

  const TEXT_COLOR := Color(1.0, 1.0, 1.0, 1.0)

  /** What Label::OnPaint appends: its text at the top-left corner of its bounds. */
  function Paint(visible: bool, text: Text, bounds: Rect): seq<DrawCommand>
  {
    if visible && text != [] then [Record(TextOp(text, bounds.x, bounds.y, TEXT_COLOR))] else []
  }

  /**
   * A label paints at most one command, a DrawText, and only when it is visible and
   * has text: never a border rectangle, never anything for its children.
   */
  lemma PaintShape(visible: bool, text: Text, bounds: Rect)
    ensures |Paint(visible, text, bounds)| == (if visible && text != [] then 1 else 0)
    ensures forall cmd <- Paint(visible, text, bounds) ::
              && cmd.kind == DrawText && cmd.text == text && cmd.rect == Rect(bounds.x, bounds.y, 0.0, 0.0)
              && cmd.color == TEXT_COLOR
  {
  }

  /** Label::OnPaint. */
  method OnPaint(list: DrawList, visible: bool, text: Text, bounds: Rect)
    modifies list
    ensures list.commands == old(list.commands) + Paint(visible, text, bounds)
  {
    if !visible {
      return;
    }
    if text != [] {
      list.AddText(text, bounds.x, bounds.y, TEXT_COLOR);
    }
  }
}
