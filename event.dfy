// Input and system notifications delivered to the widget tree.

module Events {

  datatype EventType = None | MouseMove | MouseDown | MouseUp | KeyDown | KeyUp | Resize | Paint

  /** One event: a tag and the payload fields of every tag; unused fields are zero. */
  datatype Event = Event(kind: EventType, x: int, y: int, button: int, keyCode: int, width: int, height: int)

  /** Event(): tag None, every field zero. */
  const NO_EVENT := Event(None, 0, 0, 0, 0, 0, 0)

  /** A mouse event of the given tag at (x, y), other fields zero. */
  function Mouse(kind: EventType, x: int, y: int): Event
  {
    NO_EVENT.(kind := kind, x := x, y := y)
  }
}
