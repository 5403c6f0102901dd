// Colours, rectangles, draw commands and the draw list that widgets append to
// and render backends replay.

module DrawCommands {

  /** One byte of a std::string. Non-ASCII characters are stored as their UTF-8 bytes. */
  newtype Byte = b: int | 0 <= b < 256

  /** The contents of a std::string, byte by byte. */
  type Text = seq<Byte>

  /** The byte of the space character. */
  const SPACE: Byte := 32

  /** RGBA colour; channels are not clamped. */
  datatype Color = Color(r: real, g: real, b: real, a: real)

  /** Color(): opaque black. */
  const DEFAULT_COLOR := Color(0.0, 0.0, 0.0, 1.0)

  /** Geometry in window coordinates, origin top-left; width and height may be negative. */
  datatype Rect = Rect(x: real, y: real, width: real, height: real)

  /** Rect(): all zero. */
  const EMPTY_RECT := Rect(0.0, 0.0, 0.0, 0.0)

  /** The inclusive hit test Button and PropertyGrid apply to a mouse position. */
  predicate Contains(bounds: Rect, px: real, py: real)
  {
    bounds.x <= px <= bounds.x + bounds.width && bounds.y <= py <= bounds.y + bounds.height
  }

  datatype CommandType = Clear | DrawRect | DrawText | DrawLine

  /**
   * A recorded command as the toolkit stores it: a tag, a rectangle, a colour and a
   * text. A line re-uses the rectangle as its two endpoints (x, y) and (width, height).
   */
  datatype DrawCommand = DrawCommand(kind: CommandType, rect: Rect, color: Color, text: Text)

  /** The typed reading of a command: what each tag means to a backend. */
  datatype Op =
    | ClearOp(color: Color)
    | RectOp(rect: Rect, color: Color)
    | TextOp(text: Text, x: real, y: real, color: Color)
    | LineOp(x1: real, y1: real, x2: real, y2: real, color: Color)

  /** A command whose fields that its tag does not use keep their default values. */
  predicate Canonical(cmd: DrawCommand)
  {
    match cmd.kind
    case Clear => cmd.rect == EMPTY_RECT && cmd.text == []
    case DrawRect => cmd.text == []
    case DrawText => cmd.rect.width == 0.0 && cmd.rect.height == 0.0
    case DrawLine => cmd.text == []
  }

  /** How backends read a command, tag by tag; a line's end point is (rect.width, rect.height). */
  function Decode(cmd: DrawCommand): Op
  {
    match cmd.kind
    case Clear => ClearOp(cmd.color)
    case DrawRect => RectOp(cmd.rect, cmd.color)
    case DrawText => TextOp(cmd.text, cmd.rect.x, cmd.rect.y, cmd.color)
    case DrawLine => LineOp(cmd.rect.x, cmd.rect.y, cmd.rect.width, cmd.rect.height, cmd.color)
  }

  /** The command that AddClear, AddRect, AddText or AddLine builds for an operation. */
  function Record(op: Op): (cmd: DrawCommand)
    ensures Canonical(cmd) && Decode(cmd) == op
  {
    match op
    case ClearOp(c) => DrawCommand(Clear, EMPTY_RECT, c, [])
    case RectOp(r, c) => DrawCommand(DrawRect, r, c, [])
    case TextOp(t, x, y, c) => DrawCommand(DrawText, Rect(x, y, 0.0, 0.0), c, t)
    case LineOp(x1, y1, x2, y2, c) => DrawCommand(DrawLine, Rect(x1, y1, x2, y2), c, [])
  }

  /** On canonical commands, Decode and Record are inverse: nothing a backend ignores is lost. */
  lemma RecordDecode(cmd: DrawCommand)
    requires Canonical(cmd)
    ensures Record(Decode(cmd)) == cmd
  {
  }

  function RecordAll(ops: seq<Op>): seq<DrawCommand>
  {
    if ops == [] then [] else [Record(ops[0])] + RecordAll(ops[1..])
  }

  function DecodeAll(cmds: seq<DrawCommand>): seq<Op>
  {
    if cmds == [] then [] else [Decode(cmds[0])] + DecodeAll(cmds[1..])
  }

  /** Recording a sequence of operations and decoding it gives back the same operations, in order. */
  lemma {:induction false} DecodeRecordAll(ops: seq<Op>)
    ensures |RecordAll(ops)| == |ops|
    ensures DecodeAll(RecordAll(ops)) == ops
  {
    if ops != [] {
      DecodeRecordAll(ops[1..]);
      assert RecordAll(ops)[1..] == RecordAll(ops[1..]);
    }
  }


  /** The insertion-ordered command buffer of one frame. */
  class DrawList {
    var commands: seq<DrawCommand>

    constructor ()
      ensures commands == []
    {
      commands := [];
    }

    method Clear()
      modifies this
      ensures commands == []
    {
      commands := [];
    }

    method AddClear(color: Color)
      modifies this
      ensures commands == old(commands) + [Record(ClearOp(color))]
      ensures commands[|commands| - 1] == DrawCommand(CommandType.Clear, EMPTY_RECT, color, [])
    {
      commands := commands + [DrawCommand(CommandType.Clear, EMPTY_RECT, color, [])];
    }

    method AddRect(rect: Rect, color: Color)
      modifies this
      ensures commands == old(commands) + [Record(RectOp(rect, color))]
      ensures commands[|commands| - 1] == DrawCommand(DrawRect, rect, color, [])
    {
      commands := commands + [DrawCommand(DrawRect, rect, color, [])];
    }

    method AddText(text: Text, x: real, y: real, color: Color)
      modifies this
      ensures commands == old(commands) + [Record(TextOp(text, x, y, color))]
      ensures commands[|commands| - 1] == DrawCommand(DrawText, Rect(x, y, 0.0, 0.0), color, text)
    {
      var rect := EMPTY_RECT.(x := x, y := y);
      commands := commands + [DrawCommand(DrawText, rect, color, text)];
    }

    method AddLine(x1: real, y1: real, x2: real, y2: real, color: Color)
      modifies this
      ensures commands == old(commands) + [Record(LineOp(x1, y1, x2, y2, color))]
      ensures commands[|commands| - 1] == DrawCommand(DrawLine, Rect(x1, y1, x2, y2), color, [])
    {
      var rect := EMPTY_RECT.(x := x1, y := y1, width := x2, height := y2);
      commands := commands + [DrawCommand(DrawLine, rect, color, [])];
    }

    method GetCommands() returns (cmds: seq<DrawCommand>)
      ensures cmds == commands
    {
      cmds := commands;
    }
  }

  /** Recording one more operation appends its command at the end. */
  lemma {:induction false} RecordAllSnoc(ops: seq<Op>, op: Op)
    ensures RecordAll(ops + [op]) == RecordAll(ops) + [Record(op)]
  {
    if ops != [] {
      assert (ops + [op])[1..] == ops[1..] + [op];
      RecordAllSnoc(ops[1..], op);
    }
  }

  /**
   * Clear, then one Add call per operation: whatever the list held before, it then reads
   * back as exactly those operations, in order.
   */
  method RecordFrame(list: DrawList, ops: seq<Op>)
    modifies list
    ensures list.commands == RecordAll(ops)
    ensures DecodeAll(list.commands) == ops
  {
    list.Clear();
    var i := 0;
    while i < |ops|
      invariant 0 <= i <= |ops|
      invariant list.commands == RecordAll(ops[..i])
    {
      match ops[i] {
        case ClearOp(c) => list.AddClear(c);
        case RectOp(r, c) => list.AddRect(r, c);
        case TextOp(t, x, y, c) => list.AddText(t, x, y, c);
        case LineOp(x1, y1, x2, y2, c) => list.AddLine(x1, y1, x2, y2, c);
      }
      assert ops[..i + 1] == ops[..i] + [ops[i]];
      RecordAllSnoc(ops[..i], ops[i]);
      i := i + 1;
    }
    assert ops[..i] == ops;
    DecodeRecordAll(ops);
  }
}
