// The top-level window: a base widget with a title and an optional render backend. Each
// rendered frame is a fresh draw list (a background clear, then the window's widget tree)
// handed to the backend between BeginFrame and EndFrame.

module Windows {
  import opened DrawCommands
  import opened Backends
  import opened WidgetTree
  import Widgets
  import OpenGL
  import Skia

  datatype Option<T> = None | Some(value: T)

  /** The backend a window renders through, one case per backend class. */
  datatype Renderer = OpenGLRenderer(gl: OpenGL.OpenGLBackend) | SkiaRenderer(skia: Skia.SkiaBackend)

  /** The backend object itself. */
  function Target(r: Renderer): object
  {
    match r
    case OpenGLRenderer(b) => b
    case SkiaRenderer(b) => b
  }

  function RState(r: Renderer): BackendState
    reads Target(r)
  {
    match r
    case OpenGLRenderer(b) => b.State()
    case SkiaRenderer(b) => b.State()
  }

  function RTrace(r: Renderer): seq<Primitive>
    reads Target(r)
  {
    match r
    case OpenGLRenderer(b) => b.trace
    case SkiaRenderer(b) => b.trace
  }

  /** The backend's OpenGL build switch. */
  function RGl(r: Renderer): bool
  {
    match r
    case OpenGLRenderer(b) => b.glEnabled
    case SkiaRenderer(b) => b.glEnabled
  }

  /** The GLFW build switch the backend sees. */
  function RGlfwOn(r: Renderer): bool
  {
    match r
    case OpenGLRenderer(b) => b.glfw.enabled
    case SkiaRenderer(b) => b.glfw.enabled
  }

  /** The background every frame starts with. */
  const FRAME_COLOR := Color(0.2, 0.2, 0.2, 1.0)

  /** The draw list of one frame of a window whose widget tree is v. */
  function Frame(v: WidgetValue): seq<DrawCommand>
  {
    [Record(ClearOp(FRAME_COLOR))] + PaintTree(v)
  }

  /**
   * What one rendered frame does to a backend in state s: BeginFrame (fbWidth x fbHeight
   * is the framebuffer size GLFW reports), then the frame's commands, then EndFrame.
   */
  function RenderFrame(s: BackendState, gl: bool, glfwOn: bool, fbWidth: int, fbHeight: int,
                       cmds: seq<DrawCommand>): (BackendState, seq<Primitive>)
  {
    var (s1, begin) := BeginFrame(s, gl, glfwOn, fbWidth, fbHeight);
    (s1, begin + ExecuteDrawList(s1, gl, cmds) + EndFrame(s1, glfwOn))
  }

  /**
   * On an initialised backend with OpenGL, a frame draws the background clear first and
   * then the widget tree's commands in paint order, between the frame's begin and end.
   */
  lemma FrameStartsWithClear(s: BackendState, glfwOn: bool, fbWidth: int, fbHeight: int, v: WidgetValue)
    requires s.initialized
    ensures var (s1, p) := RenderFrame(s, true, glfwOn, fbWidth, fbHeight, Frame(v));
      var begin := BeginFrame(s, true, glfwOn, fbWidth, fbHeight).1;
      p == begin + ([ClearScreen(FRAME_COLOR)] + Execute(true, PaintTree(v))) + EndFrame(s1, glfwOn)
  {
    ExecuteAppend(true, [Record(ClearOp(FRAME_COLOR))], PaintTree(v));
    assert Execute(true, [Record(ClearOp(FRAME_COLOR))]) == [ClearScreen(FRAME_COLOR)];
  }

  /**
   * A frame of a tree made only of base widgets draws the background and then one quad
   * per widget that is shown, so hiding a widget removes it and its whole subtree.
   */
  lemma PlainFrameSize(w: WidgetValue)
    requires AllPlain(w)
    ensures |Execute(true, Frame(w))| == 1 + ShownNodes(w)
  {
    ExecuteAppend(true, [Record(ClearOp(FRAME_COLOR))], PaintTree(w));
    assert Execute(true, [Record(ClearOp(FRAME_COLOR))]) == [ClearScreen(FRAME_COLOR)];
    PlainPaintsRects(w);
    ExecuteRects(PaintTree(w));
    PaintCount(w);
  }

  /** A frame appended to a trace t is BeginFrame's part, then the commands, then the swap, one after another. */
  lemma RenderFrameSteps(s: BackendState, gl: bool, glfwOn: bool, fbWidth: int, fbHeight: int,
                         cmds: seq<DrawCommand>, t: seq<Primitive>)
    ensures var (s1, begin) := BeginFrame(s, gl, glfwOn, fbWidth, fbHeight);
            RenderFrame(s, gl, glfwOn, fbWidth, fbHeight, cmds).0 == s1
            && t + RenderFrame(s, gl, glfwOn, fbWidth, fbHeight, cmds).1
               == t + begin + ExecuteDrawList(s1, gl, cmds) + EndFrame(s1, glfwOn)
  {
    var (s1, begin) := BeginFrame(s, gl, glfwOn, fbWidth, fbHeight);
    var exec, end := ExecuteDrawList(s1, gl, cmds), EndFrame(s1, glfwOn);
    assert t + begin + exec + end == t + (begin + exec + end);
  }

  class Window {
    /** The widget the window is: its bounds, visibility and children. */
    const root: Widgets.Widget
    var title: Text
    var backend: Option<Renderer>
    /** The command list rebuilt by every Render. */
    const drawList: DrawList

    ghost predicate Valid()
      reads this, root, root.Repr
    {
      root.Valid() && root.kind == Widgets.Base
    }

    /** Window(): a base widget that starts hidden, with no backend. */
    constructor ()
      ensures Valid() && fresh(root.Repr) && fresh(drawList)
      ensures backend == None && title == [] && drawList.commands == []
      ensures root.Value() == WidgetValue(Plain, Rect(0.0, 0.0, 100.0, 100.0), false, [], [])
    {
      var w := new Widgets.Widget();
      w.SetVisible(false);
      root := w;
      title := [];
      backend := None;
      drawList := new DrawList();
    }

    method SetTitle(title: Text)
      modifies this`title
      ensures GetTitle() == title
    {
      this.title := title;
    }

    function GetTitle(): Text
      reads this
    {
      title
    }

    function GetRenderBackend(): Option<Renderer>
      reads this
    {
      backend
    }

    /**
     * Stores the title, gives the window the bounds (0, 0, width, height) and the backend,
     * and initialises the backend at that size. Fails only if the backend's Initialize
     * does, which never happens.
     */
    method Create(title: Text, width: int, height: int, backend: Option<Renderer>) returns (ok: bool)
      requires Valid()
      modifies this, root, if backend.Some? then {Target(backend.value)} else {}
      ensures Valid() && this.title == title && this.backend == backend
      ensures root.Value() == old(root.Value()).(bounds := Rect(0.0, 0.0, width as real, height as real))
      ensures ok
      ensures backend.Some? ==>
                var b := backend.value;
                var (s, p) := Backends.Initialize(old(RState(b)), RGl(b), width, height);
                RState(b) == s && RTrace(b) == old(RTrace(b)) + p
    {
      // The bounds are set last here; no step reads them, so the order does not matter.
      this.title := title;
      this.backend := backend;
      ok := true;
      if backend.Some? {
        match backend.value {
          case OpenGLRenderer(b) => ok := b.Initialize(width, height);
          case SkiaRenderer(b) => ok := b.Initialize(width, height);
        }
      }
      root.Untouched();
      root.SetBounds(Rect(0.0, 0.0, width as real, height as real));
    }

    method Show()
      requires Valid()
      modifies root
      ensures Valid() && root.Value() == old(root.Value()).(visible := true)
    {
      root.SetVisible(true);
    }

    /** Update: a placeholder that does nothing. */
    method Update()
    {
    }

    /**
     * Renders one frame when the window is shown and has a backend: BeginFrame, then the
     * draw list is rebuilt from scratch (background clear, then the widget tree) and
     * executed, then EndFrame. Otherwise nothing happens. The widget tree is not changed.
     */
    method Render(fbWidth: int, fbHeight: int)
      requires Valid()
      modifies drawList, if backend.Some? then {Target(backend.value)} else {}
      ensures Valid() && root.Value() == old(root.Value())
      ensures !root.visible || backend.None? ==> drawList.commands == old(drawList.commands)
      ensures !root.visible && backend.Some? ==>
                RState(backend.value) == old(RState(backend.value)) && RTrace(backend.value) == old(RTrace(backend.value))
      ensures root.visible && backend.Some? ==>
                && drawList.commands == Frame(root.Value())
                && var b := backend.value;
                   var (s, p) := RenderFrame(old(RState(b)), RGl(b), RGlfwOn(b), fbWidth, fbHeight, Frame(root.Value()));
                   RState(b) == s && RTrace(b) == old(RTrace(b)) + p
    {
      if !root.visible || backend.None? {
        return;
      }
      match backend.value {
        case OpenGLRenderer(g) => RenderOpenGL(g, fbWidth, fbHeight);
        case SkiaRenderer(k) => RenderSkia(k, fbWidth, fbHeight);
      }
    }

    /** The middle of Render: the draw list is emptied, then the background and the tree are recorded. */
    method PaintFrame()
      requires Valid()
      modifies drawList
      ensures drawList.commands == Frame(root.Value())
    {
      drawList.Clear();
      drawList.AddClear(FRAME_COLOR);
      assert drawList.commands == [Record(ClearOp(FRAME_COLOR))];
      root.OnPaint(drawList);
    }

    /** The body of Render for a shown window whose backend is OpenGLBackend. */
    method RenderOpenGL(b: OpenGL.OpenGLBackend, fbWidth: int, fbHeight: int)
      requires Valid()
      modifies drawList, b
      ensures Valid() && root.Value() == old(root.Value())
      ensures drawList.commands == Frame(root.Value())
      ensures var (s, p) := RenderFrame(old(b.State()), b.glEnabled, b.glfw.enabled, fbWidth, fbHeight, Frame(root.Value()));
              b.State() == s && b.trace == old(b.trace) + p
    {
      ghost var v := root.Value();
      RenderFrameSteps(old(b.State()), b.glEnabled, b.glfw.enabled, fbWidth, fbHeight, Frame(v), b.trace);
      b.BeginFrame(fbWidth, fbHeight);
      root.Untouched();
      PaintFrame();
      root.Untouched();
      b.ExecuteDrawList(drawList);
      b.EndFrame();
      root.Untouched();
    }

    /** The body of Render for a shown window whose backend is SkiaBackend. */
    method RenderSkia(b: Skia.SkiaBackend, fbWidth: int, fbHeight: int)
      requires Valid()
      modifies drawList, b
      ensures Valid() && root.Value() == old(root.Value())
      ensures drawList.commands == Frame(root.Value())
      ensures var (s, p) := RenderFrame(old(b.State()), b.glEnabled, b.glfw.enabled, fbWidth, fbHeight, Frame(root.Value()));
              b.State() == s && b.trace == old(b.trace) + p
    {
      ghost var v := root.Value();
      RenderFrameSteps(old(b.State()), b.glEnabled, b.glfw.enabled, fbWidth, fbHeight, Frame(v), b.trace);
      b.BeginFrame(fbWidth, fbHeight);
      root.Untouched();
      PaintFrame();
      root.Untouched();
      b.ExecuteDrawList(drawList);
      b.EndFrame();
      root.Untouched();
    }
  }
}
