// The OpenGL render backend: lifecycle flags, an optional GLFW window, and immediate-mode
// drawing of a recorded draw list. What it asks of OpenGL and GLFW is appended to trace.

module OpenGL {
  import opened DrawCommands
  import opened Backends
  import GlfwUtils

  class OpenGLBackend {
    /** Whether the library was built with OpenGL support. */
    const glEnabled: bool
    /** The process-wide GLFW counter; its enabled flag is the GLFW build switch. */
    const glfw: GlfwUtils.Glfw

    var width: int
    var height: int
    var initialized: bool
    var window: Handle
    var ownsWindow: bool
    /** Everything requested of OpenGL and GLFW so far. */
    var trace: seq<Primitive>

    function State(): BackendState
      reads this
    {
      BackendState(width, height, initialized, window, ownsWindow)
    }

    constructor (glfw: GlfwUtils.Glfw, glEnabled: bool)
      ensures this.glfw == glfw && this.glEnabled == glEnabled
      ensures State() == INITIAL && trace == []
    {
      this.glfw := glfw;
      this.glEnabled := glEnabled;
      width, height := 0, 0;
      initialized := false;
      window := Null;
      ownsWindow := false;
      trace := [];
    }

    /**
     * CreateWindow; initOk is what glfwInit answers and created what glfwCreateWindow
     * returns (Null when it fails).
     */
    method CreateWindow(title: Text, width: int, height: int, initOk: bool, created: Handle) returns (ok: bool)
      requires glfw.Valid()
      modifies this, glfw
      ensures glfw.Valid() && trace == old(trace)
      ensures (State(), glfw.State(), ok)
              == Backends.CreateWindow(old(State()), old(glfw.State()), glfw.enabled, initOk, created, width, height)
    {
      if !glfw.enabled {
        return false;
      }
      var acquired := glfw.Initialize(initOk);
      if !acquired {
        return false;
      }
      if created == Null {
        glfw.Terminate();
        return false;
      }
      window := created;
      ownsWindow := true;
      this.width := width;
      this.height := height;
      return true;
    }

    method DestroyWindow()
      requires glfw.Valid()
      modifies this`window, this`ownsWindow, glfw
      ensures glfw.Valid()
      ensures (State(), glfw.State()) == Backends.DestroyWindow(old(State()), old(glfw.State()), glfw.enabled)
    {
      if glfw.enabled && window != Null && ownsWindow {
        window := Null;
        ownsWindow := false;
        glfw.Terminate();
      }
    }

    /** ShouldClose; closeRequested is glfwWindowShouldClose's answer. */
    method ShouldClose(closeRequested: bool) returns (close: bool)
      ensures close == Backends.ShouldClose(State(), glfw.enabled, closeRequested)
    {
      if glfw.enabled && window != Null {
        return closeRequested;
      }
      return true;
    }

    method SwapBuffers()
      modifies this`trace
      ensures trace == old(trace) + (if glfw.enabled && window != Null then [Swap] else [])
    {
      if glfw.enabled && window != Null {
        trace := trace + [Swap];
      }
    }

    function GetNativeWindowHandle(): Handle
      reads this
    {
      window
    }

    method Initialize(width: int, height: int) returns (ok: bool)
      modifies this`width, this`height, this`initialized, this`trace
      ensures ok
      ensures State() == Backends.Initialize(old(State()), glEnabled, width, height).0
      ensures trace == old(trace) + Backends.Initialize(old(State()), glEnabled, width, height).1
    {
      this.width := width;
      this.height := height;
      if glEnabled && window != Null {
        trace := trace + [Viewport(width, height)];
      }
      initialized := true;
      return true;
    }

    method Shutdown()
      requires glfw.Valid()
      modifies this`window, this`ownsWindow, this`initialized, glfw
      ensures glfw.Valid()
      ensures (State(), glfw.State()) == Backends.Shutdown(old(State()), old(glfw.State()), glfw.enabled)
    {
      if !initialized {
        return;
      }
      DestroyWindow();
      initialized := false;
    }

    /** BeginFrame; fbWidth x fbHeight is the window's framebuffer size as GLFW reports it. */
    method BeginFrame(fbWidth: int, fbHeight: int)
      modifies this`width, this`height, this`trace
      ensures State() == Backends.BeginFrame(old(State()), glEnabled, glfw.enabled, fbWidth, fbHeight).0
      ensures trace == old(trace) + Backends.BeginFrame(old(State()), glEnabled, glfw.enabled, fbWidth, fbHeight).1
    {
      if !initialized {
        return;
      }
      if glEnabled && window != Null && glfw.enabled {
        if fbWidth != width || fbHeight != height {
          Resize(fbWidth, fbHeight);
        }
      }
    }

    method EndFrame()
      modifies this`trace
      ensures trace == old(trace) + Backends.EndFrame(State(), glfw.enabled)
    {
      if !initialized {
        return;
      }
      SwapBuffers();
    }

    method ClearScreen(color: Color)
      modifies this`trace
      ensures trace == old(trace) + ClearPrims(glEnabled, color)
    {
      if glEnabled {
        trace := trace + [Primitive.ClearScreen(color)];
      }
    }

    method DrawRect(rect: Rect, color: Color)
      modifies this`trace
      ensures trace == old(trace) + RectPrims(glEnabled, rect, color)
    {
      if glEnabled {
        trace := trace + [Quad(rect.x, rect.y, rect.x + rect.width, rect.y + rect.height, color)];
      }
    }

    method DrawLine(x1: real, y1: real, x2: real, y2: real, color: Color)
      modifies this`trace
      ensures trace == old(trace) + LinePrims(glEnabled, x1, y1, x2, y2, color)
    {
      if glEnabled {
        trace := trace + [Line(x1, y1, x2, y2, color)];
      }
    }

    /** One 6 x 12 block per character that is not a space; every character advances the pen by 7. */
    method DrawText(text: Text, x: real, y: real, color: Color)
      modifies this`trace
      ensures trace == old(trace) + TextPrims(glEnabled, text, x, y, color)
    {
      if !glEnabled {
        return;
      }
      if text == [] {
        return;
      }
      var charWidth := 7.0;
      var charHeight := 12.0;
      var curX := x;
      var i := 0;
      while i < |text|
        invariant 0 <= i <= |text|
        invariant curX == x + CHAR_WIDTH * (i as real)
        invariant trace == old(trace) + Glyphs(text, x, y, color, i)
      {
        var c := text[i];
        if c == SPACE {
          curX := curX + charWidth;
          i := i + 1;
          continue;
        }
        trace := trace + [Quad(curX, y, curX + charWidth - 1.0, y + charHeight, color)];
        ghost var done, glyph := Glyphs(text, x, y, color, i), Glyph(text, x, y, color, i);
        assert old(trace) + done + glyph == old(trace) + (done + glyph);
        curX := curX + charWidth;
        i := i + 1;
      }
    }

    /** Replays the commands in recorded order, each by its tag; nothing before Initialize. */
    method ExecuteDrawList(drawList: DrawList)
      modifies this`trace
      ensures trace == old(trace) + Backends.ExecuteDrawList(State(), glEnabled, drawList.commands)
    {
      if !initialized {
        return;
      }
      var commands := drawList.GetCommands();
      var i := 0;
      while i < |commands|
        invariant 0 <= i <= |commands|
        invariant trace == old(trace) + Execute(glEnabled, commands[..i])
      {
        var cmd := commands[i];
        ExecuteCommand(cmd);
        assert commands[..i + 1][..i] == commands[..i];
        ghost var done, step := Execute(glEnabled, commands[..i]), CommandPrims(glEnabled, cmd);
        assert old(trace) + done + step == old(trace) + (done + step);
        i := i + 1;
      }
      assert commands[..i] == commands;
    }

    /** One iteration of ExecuteDrawList: the switch on the command's tag. */
    method ExecuteCommand(cmd: DrawCommand)
      modifies this`trace
      ensures trace == old(trace) + CommandPrims(glEnabled, cmd)
    {
      match cmd.kind {
        case Clear => ClearScreen(cmd.color);
        case DrawRect => DrawRect(cmd.rect, cmd.color);
        case DrawText => DrawText(cmd.text, cmd.rect.x, cmd.rect.y, cmd.color);
        // the rectangle's size holds the line's end point
        case DrawLine => DrawLine(cmd.rect.x, cmd.rect.y, cmd.rect.width, cmd.rect.height, cmd.color);
      }
    }

    method Resize(width: int, height: int)
      modifies this`width, this`height, this`trace
      ensures State() == Backends.Resize(old(State()), glEnabled, width, height).0
      ensures trace == old(trace) + Backends.Resize(old(State()), glEnabled, width, height).1
    {
      this.width := width;
      this.height := height;
      if initialized && glEnabled {
        trace := trace + [Viewport(width, height)];
      }
    }
  }
}
