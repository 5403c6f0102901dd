// What the two render backends do, stated once: their lifecycle state, how a recorded
// draw list turns into drawing primitives, and how text becomes one block per glyph.
// The calls into OpenGL and GLFW are foreign; the backends' output is modelled as a
// trace of Primitive values and the answers GLFW gives are inputs.

module Backends {
  import opened DrawCommands
  import GlfwUtils

  /** A native GLFW window handle; Null stands for nullptr. */
  datatype Handle = Null | Native(id: nat)

  /** One drawing request made to OpenGL or GLFW. */
  datatype Primitive =
    | ClearScreen(color: Color)
      /** A filled quad with corners (left, top), (right, top), (right, bottom), (left, bottom). */
    | Quad(left: real, top: real, right: real, bottom: real, color: Color)
    | Line(x1: real, y1: real, x2: real, y2: real, color: Color)
      /** Viewport and top-left-origin orthographic projection for a width x height surface. */
    | Viewport(width: int, height: int)
      /** Presenting the back buffer of the backend's window. */
    | Swap

  /** The cell one character advances the pen by, and the height of a glyph block. */
  const CHAR_WIDTH: real := 7.0
  const CHAR_HEIGHT: real := 12.0

  /** width_, height_, initialized_, window_ and ownsWindow_. */
  datatype BackendState = BackendState(width: int, height: int, initialized: bool, window: Handle, ownsWindow: bool)

  /** A newly constructed backend: 0 x 0, not initialised, no window. */
  const INITIAL := BackendState(0, 0, false, Null, false)

  /** A backend holds a window exactly when it created it and owns it. */
  predicate Consistent(s: BackendState)
  {
    s.ownsWindow == (s.window != Null)
  }

  // ---------------------------------------------------------------------------------
  // Drawing

  function ClearPrims(gl: bool, color: Color): seq<Primitive>
  {
    if gl then [ClearScreen(color)] else []
  }

  function RectPrims(gl: bool, r: Rect, color: Color): seq<Primitive>
  {
    if gl then [Quad(r.x, r.y, r.x + r.width, r.y + r.height, color)] else []
  }

  function LinePrims(gl: bool, x1: real, y1: real, x2: real, y2: real, color: Color): seq<Primitive>
  {
    if gl then [Line(x1, y1, x2, y2, color)] else []
  }

  /** The block for byte i: nothing for a space, else a 6 x 12 quad in cell i. */
  function Glyph(text: Text, x: real, y: real, color: Color, i: nat): seq<Primitive>
    requires i < |text|
  {
    if text[i] == SPACE then []
    else
      var left := x + CHAR_WIDTH * (i as real);
      [Quad(left, y, left + CHAR_WIDTH - 1.0, y + CHAR_HEIGHT, color)]
  }

  /** The blocks of the first n bytes, left to right. */
  function Glyphs(text: Text, x: real, y: real, color: Color, n: nat): seq<Primitive>
    requires n <= |text|
  {
    if n == 0 then [] else Glyphs(text, x, y, color, n - 1) + Glyph(text, x, y, color, n - 1)
  }

  function TextPrims(gl: bool, text: Text, x: real, y: real, color: Color): seq<Primitive>
  {
    if !gl || text == [] then [] else Glyphs(text, x, y, color, |text|)
  }

  /** The number of bytes among the first n that are not spaces. */
  function NonSpaces(text: Text, n: nat): nat
    requires n <= |text|
  {
    if n == 0 then 0 else NonSpaces(text, n - 1) + (if text[n - 1] == SPACE then 0 else 1)
  }

  /** One block per byte that is not a space. */
  lemma {:induction false} GlyphCount(text: Text, x: real, y: real, color: Color, n: nat)
    requires n <= |text|
    ensures |Glyphs(text, x, y, color, n)| == NonSpaces(text, n)
  {
    if n > 0 {
      GlyphCount(text, x, y, color, n - 1);
    }
  }

  /**
   * A character outside ASCII is several UTF-8 bytes, and each byte takes a cell of its
   * own: the bytes 0xC2 0xB3 of a superscript three draw two blocks side by side.
   */
  lemma MultiByteCharacter(x: real, y: real, color: Color)
    ensures TextPrims(true, [0xC2, 0xB3], x, y, color)
         == [Quad(x, y, x + CHAR_WIDTH - 1.0, y + CHAR_HEIGHT, color),
             Quad(x + CHAR_WIDTH, y, x + 2.0 * CHAR_WIDTH - 1.0, y + CHAR_HEIGHT, color)]
  {
    var text: Text := [0xC2, 0xB3];
    assert Glyphs(text, x, y, color, 1) == Glyph(text, x, y, color, 0);
    assert Glyphs(text, x, y, color, 2) == Glyph(text, x, y, color, 0) + Glyph(text, x, y, color, 1);
  }

  /**
   * Every block is a quad in the text's colour, 6 wide and 12 high, with its top at y and
   * its left edge at x + 7i for the index i of a byte that is not a space.
   */
  lemma {:induction false} GlyphShapes(text: Text, x: real, y: real, color: Color, n: nat)
    requires n <= |text|
    ensures forall p <- Glyphs(text, x, y, color, n) ::
              && p.Quad? && p.color == color
              && p.top == y && p.bottom == y + CHAR_HEIGHT && p.right == p.left + CHAR_WIDTH - 1.0
              && exists i :: 0 <= i < n && text[i] != SPACE && p.left == x + CHAR_WIDTH * (i as real)
  {
    if n > 0 {
      GlyphShapes(text, x, y, color, n - 1);
    }
  }

  /** Quads, each lying a clear pixel column left of every later one. */
  predicate LeftToRight(g: seq<Primitive>)
  {
    forall i, j :: 0 <= i < j < |g| ==> g[i].Quad? && g[j].Quad? && g[i].right < g[j].left
  }

  /** Blocks stay within the n cells from x and come left to right. */
  lemma {:induction false} GlyphsOrdered(text: Text, x: real, y: real, color: Color, n: nat)
    requires n <= |text|
    ensures forall p <- Glyphs(text, x, y, color, n) ::
              p.Quad? && x <= p.left && p.left + CHAR_WIDTH <= x + CHAR_WIDTH * (n as real)
              && p.right == p.left + CHAR_WIDTH - 1.0
    ensures LeftToRight(Glyphs(text, x, y, color, n))
  {
    if n > 0 {
      var front := Glyphs(text, x, y, color, n - 1);
      var last := Glyph(text, x, y, color, n - 1);
      GlyphsOrdered(text, x, y, color, n - 1);
      var left := x + CHAR_WIDTH * ((n - 1) as real);
      assert left + CHAR_WIDTH == x + CHAR_WIDTH * (n as real);
      var g := front + last;
      forall i, j | 0 <= i < j < |g|
        ensures g[i].Quad? && g[j].Quad? && g[i].right < g[j].left
      {
        if j < |front| {
          assert g[i] == front[i] && g[j] == front[j];
        } else {
          assert g[i] == front[i] && g[j] == last[0];
        }
      }
    }
  }

  /** Text made only of spaces draws nothing, though the pen still advances. */
  lemma {:induction false} BlankTextDrawsNothing(text: Text, x: real, y: real, color: Color, n: nat)
    requires n <= |text|
    requires forall i :: 0 <= i < n ==> text[i] == SPACE
    ensures Glyphs(text, x, y, color, n) == []
  {
    if n > 0 {
      BlankTextDrawsNothing(text, x, y, color, n - 1);
    }
  }

  /** The primitives for one recorded command, chosen by its tag. */
  function CommandPrims(gl: bool, cmd: DrawCommand): seq<Primitive>
  {
    match cmd.kind
    case Clear => ClearPrims(gl, cmd.color)
    case DrawRect => RectPrims(gl, cmd.rect, cmd.color)
    case DrawText => TextPrims(gl, cmd.text, cmd.rect.x, cmd.rect.y, cmd.color)
    case DrawLine => LinePrims(gl, cmd.rect.x, cmd.rect.y, cmd.rect.width, cmd.rect.height, cmd.color)
  }

  /** The primitives for a list of commands, in recorded order. */
  function Execute(gl: bool, cmds: seq<DrawCommand>): seq<Primitive>
  {
    if cmds == [] then [] else Execute(gl, cmds[..|cmds| - 1]) + CommandPrims(gl, cmds[|cmds| - 1])
  }

  /** The primitives for an operation as it was requested of the draw list. */
  function OpPrims(gl: bool, op: Op): seq<Primitive>
  {
    match op
    case ClearOp(c) => ClearPrims(gl, c)
    case RectOp(r, c) => RectPrims(gl, r, c)
    case TextOp(t, x, y, c) => TextPrims(gl, t, x, y, c)
    case LineOp(x1, y1, x2, y2, c) => LinePrims(gl, x1, y1, x2, y2, c)
  }

  function ExecuteOps(gl: bool, ops: seq<Op>): seq<Primitive>
  {
    if ops == [] then [] else OpPrims(gl, ops[0]) + ExecuteOps(gl, ops[1..])
  }


  /** Executing two lists one after the other is executing their concatenation. */
  lemma {:induction false} ExecuteAppend(gl: bool, a: seq<DrawCommand>, b: seq<DrawCommand>)
    ensures Execute(gl, a + b) == Execute(gl, a) + Execute(gl, b)
    decreases |b|
  {
    if b == [] {
      assert a + b == a;
    } else {
      var front := b[..|b| - 1];
      assert (a + b)[..|a + b| - 1] == a + front;
      ExecuteAppend(gl, a, front);
      var ea, ef, el := Execute(gl, a), Execute(gl, front), CommandPrims(gl, b[|b| - 1]);
      assert ea + ef + el == ea + (ef + el);
    }
  }

  /**
   * Recording operations in a draw list and executing it draws exactly what the
   * operations ask for, in order; in particular a line comes back with the endpoints it
   * was added with, although the list keeps the second one in the rectangle's size.
   */
  lemma {:induction false} ExecuteRecorded(gl: bool, ops: seq<Op>)
    ensures Execute(gl, RecordAll(ops)) == ExecuteOps(gl, ops)
  {
    if ops != [] {
      ExecuteRecorded(gl, ops[1..]);
      ExecuteAppend(gl, [Record(ops[0])], RecordAll(ops[1..]));
      assert Execute(gl, [Record(ops[0])]) == CommandPrims(gl, Record(ops[0]));
    }
  }

  /** With OpenGL, a list of rectangles draws one quad per rectangle. */
  lemma {:induction false} ExecuteRects(cmds: seq<DrawCommand>)
    requires forall c <- cmds :: c.kind == DrawRect
    ensures |Execute(true, cmds)| == |cmds|
    ensures forall p <- Execute(true, cmds) :: p.Quad?
  {
    if cmds != [] {
      ExecuteRects(cmds[..|cmds| - 1]);
    }
  }

  /** Without OpenGL nothing is drawn at all. */
  lemma {:induction false} ExecuteWithoutGl(cmds: seq<DrawCommand>)
    ensures Execute(false, cmds) == []
  {
    if cmds != [] {
      ExecuteWithoutGl(cmds[..|cmds| - 1]);
    }
  }

  // ---------------------------------------------------------------------------------
  // Lifecycle. gl is the OpenGL build switch, glfwOn the GLFW one.

  /** Initialize: always succeeds; records the size and sets up the viewport if there is a window. */
  function Initialize(s: BackendState, gl: bool, width: int, height: int): (BackendState, seq<Primitive>)
  {
    (s.(width := width, height := height, initialized := true),
     if gl && s.window != Null then [Viewport(width, height)] else [])
  }

  /** Resize: always records the size; redoes the viewport only once initialised. */
  function Resize(s: BackendState, gl: bool, width: int, height: int): (BackendState, seq<Primitive>)
  {
    (s.(width := width, height := height),
     if s.initialized && gl then [Viewport(width, height)] else [])
  }

  /** BeginFrame: follows a change of the window's framebuffer size (fbWidth x fbHeight). */
  function BeginFrame(s: BackendState, gl: bool, glfwOn: bool, fbWidth: int, fbHeight: int): (BackendState, seq<Primitive>)
  {
    if s.initialized && gl && s.window != Null && glfwOn && (fbWidth != s.width || fbHeight != s.height)
    then Resize(s, gl, fbWidth, fbHeight)
    else (s, [])
  }

  /** EndFrame: swaps the buffers of the window, if there is one. */
  function EndFrame(s: BackendState, glfwOn: bool): seq<Primitive>
  {
    if s.initialized && glfwOn && s.window != Null then [Swap] else []
  }

  function ExecuteDrawList(s: BackendState, gl: bool, cmds: seq<DrawCommand>): seq<Primitive>
  {
    if s.initialized then Execute(gl, cmds) else []
  }

  /** ShouldClose: asks GLFW (closeRequested) when there is a window, and is true otherwise. */
  function ShouldClose(s: BackendState, glfwOn: bool, closeRequested: bool): bool
  {
    if glfwOn && s.window != Null then closeRequested else true
  }

  /**
   * CreateWindow: takes a GLFW reference (initOk is glfwInit's answer), then asks GLFW for
   * a window (created, Null on failure). A failure after the reference was taken gives it
   * back. Returns the new backend state, the new GLFW state and the result.
   */
  function CreateWindow(s: BackendState, g: GlfwUtils.GlfwState, glfwOn: bool, initOk: bool, created: Handle,
                        width: int, height: int): (BackendState, GlfwUtils.GlfwState, bool)
  {
    if !glfwOn then (s, g, false)
    else
      var (g1, acquired) := GlfwUtils.Acquire(true, g, initOk);
      if !acquired then (s, g1, false)
      else if created == Null then (s, GlfwUtils.Release(true, g1), false)
      else (s.(window := created, ownsWindow := true, width := width, height := height), g1, true)
  }

  /** DestroyWindow: only an owned window is destroyed, and its GLFW reference released. */
  function DestroyWindow(s: BackendState, g: GlfwUtils.GlfwState, glfwOn: bool): (BackendState, GlfwUtils.GlfwState)
  {
    if glfwOn && s.window != Null && s.ownsWindow
    then (s.(window := Null, ownsWindow := false), GlfwUtils.Release(true, g))
    else (s, g)
  }

  /** Shutdown: nothing before Initialize; otherwise destroys the window and un-initialises. */
  function Shutdown(s: BackendState, g: GlfwUtils.GlfwState, glfwOn: bool): (BackendState, GlfwUtils.GlfwState)
  {
    if !s.initialized then (s, g)
    else
      var (s1, g1) := DestroyWindow(s, g, glfwOn);
      (s1.(initialized := false), g1)
  }

  /**
   * Before Initialize a backend draws nothing and its frame calls change nothing. Shutdown
   * then leaves a window created earlier, and its GLFW reference, in place.
   */
  lemma InactiveIsSilent(s: BackendState, g: GlfwUtils.GlfwState, gl: bool, glfwOn: bool,
                         fbWidth: int, fbHeight: int, cmds: seq<DrawCommand>)
    requires !s.initialized
    ensures BeginFrame(s, gl, glfwOn, fbWidth, fbHeight) == (s, [])
    ensures EndFrame(s, glfwOn) == [] && ExecuteDrawList(s, gl, cmds) == []
    ensures Shutdown(s, g, glfwOn) == (s, g)
  {
  }

  /** A second Shutdown does nothing, whatever the first one did. */
  lemma ShutdownIdempotent(s: BackendState, g: GlfwUtils.GlfwState, glfwOn: bool)
    ensures var (s1, g1) := Shutdown(s, g, glfwOn);
      !s1.initialized && Shutdown(s1, g1, glfwOn) == (s1, g1)
  {
  }

  /**
   * After BeginFrame an initialised backend with a window has the framebuffer's size,
   * and the viewport is redone exactly when the size changed.
   */
  lemma BeginFrameTracksFramebuffer(s: BackendState, gl: bool, glfwOn: bool, fbWidth: int, fbHeight: int)
    requires s.initialized && gl && glfwOn && s.window != Null
    ensures var (t, p) := BeginFrame(s, gl, glfwOn, fbWidth, fbHeight);
      && t.width == fbWidth && t.height == fbHeight
      && t.initialized && t.window == s.window && t.ownsWindow == s.ownsWindow
      && (p != [] <==> fbWidth != s.width || fbHeight != s.height)
      && (p != [] ==> p == [Viewport(fbWidth, fbHeight)])
  {
  }

  /**
   * A successful CreateWindow installs the new window at the requested size and keeps one
   * GLFW reference more; a failed one leaves the backend and the reference count as they
   * were, even when the failure came after GLFW was initialised.
   */
  lemma CreateWindowOutcome(s: BackendState, g: GlfwUtils.GlfwState, glfwOn: bool, initOk: bool, created: Handle,
                            width: int, height: int)
    ensures var (t, h, ok) := CreateWindow(s, g, glfwOn, initOk, created, width, height);
      && (ok ==> t == s.(window := created, ownsWindow := true, width := width, height := height)
                 && created != Null && h.refCount == g.refCount + 1)
      && (!ok ==> t == s && h.refCount == g.refCount)
      && (ok <==> glfwOn && created != Null && (g.refCount > 0 || initOk))
  {
    if glfwOn {
      GlfwUtils.AcquireCases(true, g, initOk);
      if GlfwUtils.Acquire(true, g, initOk).1 {
        GlfwUtils.AcquireThenRelease(true, g, initOk);
      }
    }
  }

  /**
   * Creating a window and then destroying it leaves the backend without a window and the
   * GLFW count where it started.
   */
  lemma CreateThenDestroy(s: BackendState, g: GlfwUtils.GlfwState, initOk: bool, created: Handle, width: int, height: int)
    requires CreateWindow(s, g, true, initOk, created, width, height).2
    ensures var (t, h, _) := CreateWindow(s, g, true, initOk, created, width, height);
      var (u, k) := DestroyWindow(t, h, true);
      u.window == Null && !u.ownsWindow && k.refCount == g.refCount
  {
    CreateWindowOutcome(s, g, true, initOk, created, width, height);
  }

  /** Every lifecycle step keeps "owns a window iff it has one". */
  lemma LifecycleConsistent(s: BackendState, g: GlfwUtils.GlfwState, gl: bool, glfwOn: bool, initOk: bool,
                            created: Handle, width: int, height: int)
    requires Consistent(s)
    ensures Consistent(INITIAL)
    ensures Consistent(CreateWindow(s, g, glfwOn, initOk, created, width, height).0)
    ensures Consistent(DestroyWindow(s, g, glfwOn).0)
    ensures Consistent(Shutdown(s, g, glfwOn).0)
    ensures Consistent(Initialize(s, gl, width, height).0)
    ensures Consistent(BeginFrame(s, gl, glfwOn, width, height).0)
  {
  }

  /** Without a window ShouldClose is true. */
  lemma NoWindowShouldClose(s: BackendState, glfwOn: bool, closeRequested: bool)
    requires s.window == Null
    ensures ShouldClose(s, glfwOn, closeRequested)
  {
  }
}
