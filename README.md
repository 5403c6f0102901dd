# SnowUI core in Dafny

This project models the core of SnowUI, a small retained-mode GUI toolkit written in C++:
everything between "a widget tree exists" and "drawing primitives are emitted".

- **Draw list** (`draw_command.dfy`, module `DrawCommands`). `Color`, `Rect`, the four-tag
  `DrawCommand` and the class `DrawList`, an insertion-ordered buffer that widgets append to.
  A command is read back by `Decode` as a typed `Op`; `Record` is the command each `Add*`
  builds. A line keeps its second endpoint in the rectangle's width and height, and `Decode`
  undoes that.
- **Widget tree** (`widget_tree.dfy`, `widget.dfy`). `WidgetTree` is the tree as a value:
  `PaintTree` is what `OnPaint` appends and `Dispatch` is what `OnEvent` changes. `Widgets.Widget`
  is the class, with the fields the toolkit's classes update. Label, Button and PropertyGrid
  become a `kind` tag on that one class. Each kind's `OnPaint`/`OnEvent` is one branch, and each
  branch is proved against the pure per-kind definitions in `label.dfy`, `button.dfy` and
  `property_grid.dfy`. `Repr`/`Valid` express that the children form a tree, and `Value()`
  maps the objects to a `WidgetValue`.
- **Layout** (`layout.dfy`). `Slot` gives the rectangle of the k-th of n widgets. The class
  `Layout` runs the source's loop with a running `y` (or `x`) and is proved to give every
  widget its slot.
- **Window** (`window.dfy`). The window's own widget is the field `root`. `Render` is proved
  to call the backend's `BeginFrame`, then clear and refill the draw list, then call
  `ExecuteDrawList` and `EndFrame`. `RenderFrame` states the effect of that sequence.
- **GLFW reference counter** (`glfw.dfy`). `Acquire`/`Release` on a `GlfwState` that also
  counts library inits and terminates. The class `Glfw` stands for the process-wide counter.
- **Render backends** (`backend_model.dfy`, `opengl_backend.dfy`, `skia_backend.dfy`).
  `Backends` states the lifecycle (`BackendState`) and how commands become `Primitive`s
  once. OpenGL and GLFW are foreign code, so each backend class appends what it asks of them
  to a `trace` of `Primitive` values. What GLFW answers (`glfwInit`, `glfwCreateWindow`,
  `glfwWindowShouldClose`, the framebuffer size) is passed in as a parameter. The build switches
  `SNOWUI_GLFW_ENABLED` and `SNOWUI_OPENGL_ENABLED` are the fields `Glfw.enabled` and
  `glEnabled`.

Floats are modelled as `real` and `static_cast<int>` as truncation toward zero
(`PropertyGrids.Trunc`). The default `Color()` is `DrawCommands.DEFAULT_COLOR` and `Rect()` is
`DrawCommands.EMPTY_RECT`. A `std::string` is a `DrawCommands.Text`, the sequence of its
bytes (`DrawCommands.Byte`, 0 to 255), so a character outside ASCII is its UTF-8 bytes, as
`text.length()` and `text[i]` see it. The getters `GetBounds`, `GetChildren`, `IsVisible`, `GetText`,
`Window.GetTitle`, `Window.GetRenderBackend` and the backends' `GetNativeWindowHandle` are
plain reads of a field. The setters' contracts are stated through them. `Window.Update` has an
empty body and no `modifies` clause, so it changes nothing.

## Model

| member | source | states |
|---|---|---|
| DrawCommands.Record | include/SnowUI/Render/DrawCommand.h:62-96 | the command each Add* builds leaves every field its tag does not use at its default, and decodes back to the operation requested |
| DrawCommands.RecordDecode | include/SnowUI/Render/DrawCommand.h:42-52 | on such canonical commands, Record inverts Decode, so nothing a backend ignores is lost |
| DrawCommands.DecodeRecordAll | include/SnowUI/Render/DrawCommand.h:57-101 | recording a sequence of operations and decoding the commands gives the same operations, in order and with the same length |
| DrawCommands.DrawList.constructor | include/SnowUI/Render/DrawCommand.h:103-104 | a new list holds no commands |
| DrawCommands.DrawList.Clear | include/SnowUI/Render/DrawCommand.h:57-60 | the list is empty whatever it held |
| DrawCommands.DrawList.AddClear | include/SnowUI/Render/DrawCommand.h:62-67 | exactly one command is appended and earlier ones are kept: tag Clear, the colour, an all-zero rect and empty text |
| DrawCommands.DrawList.AddRect | include/SnowUI/Render/DrawCommand.h:69-75 | exactly one command is appended: tag DrawRect, rect and colour verbatim, empty text |
| DrawCommands.DrawList.AddText | include/SnowUI/Render/DrawCommand.h:77-85 | exactly one command is appended: tag DrawText, the text, (x, y) in rect.x/rect.y, width and height 0 |
| DrawCommands.DrawList.AddLine | include/SnowUI/Render/DrawCommand.h:87-96 | exactly one command is appended: tag DrawLine, with rect = (x1, y1, x2, y2) |
| DrawCommands.DrawList.GetCommands | include/SnowUI/Render/DrawCommand.h:98-101 | returns the stored commands |
| DrawCommands.RecordFrame | include/SnowUI/Render/DrawCommand.h:57-101 | Clear followed by one Add per operation, for any operations and whatever the list held: the list is then exactly their recorded commands and reads back as exactly those operations, in order |
| Labels.PaintShape | src/Widgets/Label.cpp:10-19 | a label paints one DrawText of its text, in white, at its top-left corner iff it is visible and has text; it never paints a border or children |
| Labels.OnPaint | src/Widgets/Label.cpp:10-19 | appends exactly Labels.Paint to the caller's list |
| Buttons.PaintShape | src/Widgets/Button.cpp:8-19 | an invisible button paints nothing; a visible one first paints its bounds as a rectangle in opaque grey 0.4 when pressed and 0.6 otherwise, then, iff it has text, a second command: its text in white at the centre of the bounds |
| Buttons.StepCases | src/Widgets/Button.cpp:21-37 | hidden: events ignored; mouse-down presses iff inside, edges included; mouse-up releases and clicks once iff pressed with a callback; other events change nothing |
| Buttons.PressRelease | src/Widgets/Button.cpp:21-37 | a press inside followed by a release anywhere runs the callback exactly once, if set, and leaves the button released |
| Buttons.ReleaseWithoutPress | src/Widgets/Button.cpp:31-36 | a release with no press before it never runs the callback |
| Buttons.OnPaint | src/Widgets/Button.cpp:8-19 | appends exactly Buttons.Paint to the caller's list |
| PropertyGrids.RowsCount | src/Widgets/PropertyGrid.cpp:18-32 | the first n rows paint two texts each plus one highlight if the selected row is among them |
| PropertyGrids.PaintCount | src/Widgets/PropertyGrid.cpp:8-33 | a visible grid paints 1 + 2n commands, plus 1 when a row is selected, starting with its background; a hidden one paints nothing |
| PropertyGrids.Trunc | src/Widgets/PropertyGrid.cpp:45 | the integer cast truncates toward zero: for r >= 0 the result is the largest integer not above r, for r < 0 the smallest integer not below r, so 0 for -1 < r < 1 |
| PropertyGrids.SelectCases | src/Widgets/PropertyGrid.cpp:35-51 | an event keeps the selection or moves it to an existing row; only a mouse-down inside a visible grid moves it; a valid selection stays valid |
| PropertyGrids.RowHit | src/Widgets/PropertyGrid.cpp:38-50 | a mouse-down on the painted band of an existing row selects that row |
| PropertyGrids.PaddingSelectsFirstRow | src/Widgets/PropertyGrid.cpp:45 | a click in the 5-unit padding above the first row selects row 0 |
| PropertyGrids.BelowLastRow | src/Widgets/PropertyGrid.cpp:46-48 | a click below the last row leaves the selection as it was |
| PropertyGrids.OnPaint | src/Widgets/PropertyGrid.cpp:8-33 | the loop with its running y appends exactly PropertyGrids.Paint |
| PropertyGrids.PaintRow | src/Widgets/PropertyGrid.cpp:19-31 | one iteration appends row i's highlight iff selected, then its name at (x+5, y+5), then its value at (x+width/2, y+5) |
| WidgetTree.DispatchAll | src/Core/Widget.cpp:21-26 | every child gets the same event and is handled on its own; the number of children is kept |
| WidgetTree.PaintInvisible | src/Core/Widget.cpp:9-10 | an invisible widget paints nothing and visits no child |
| WidgetTree.PaintAllAppend | src/Core/Widget.cpp:15-18 | siblings paint as consecutive blocks: painting xs then ys is painting xs + ys |
| WidgetTree.PaintPreOrder | src/Core/Widget.cpp:9-18 | a visible base widget appends its border in (0.5, 0.5, 0.5, 1) first, then each child's block in insertion order |
| WidgetTree.PaintCount | src/Core/Widget.cpp:9-18 | in a tree of base widgets the commands appended number the nodes that are visible along with all their ancestors |
| WidgetTree.PaintAllCount | src/Core/Widget.cpp:15-18 | the same count for a sequence of sibling trees |
| WidgetTree.PlainPaintsRects | src/Core/Widget.cpp:9-18 | a tree of base widgets paints only rectangles |
| WidgetTree.ForwardingIgnoresVisibility | src/Core/Widget.cpp:21-26 | base widgets and labels forward to all children whatever their own visibility; buttons and grids never forward |
| WidgetTree.DispatchKeepsLayout | src/Core/Widget.cpp:21-26 | events change only button and grid state, never bounds, visibility, text, items, callbacks or tree shape |
| WidgetTree.DispatchKeepsSelections | src/Widgets/PropertyGrid.cpp:35-51 | after any event every grid in the tree still has selection -1 or a row index |
| Widgets.Widget.constructor | src/Core/Widget.cpp:5-7 | a new widget is visible, has bounds (0, 0, 100, 100), no children and no text |
| Widgets.Widget.Label | src/Widgets/Label.cpp:6-8 | a new label is a new widget that paints as a label |
| Widgets.Widget.Button | src/Widgets/Button.cpp:5-6 | a new button is not pressed and has no callback |
| Widgets.Widget.PropertyGrid | src/Widgets/PropertyGrid.cpp:5-6 | a new grid has no items and selection -1 |
| Widgets.Widget.SetVisible | include/SnowUI/Core/Widget.h:32-35 | IsVisible() is then v and the tree's value changes only in this node's visibility |
| Widgets.Widget.SetText | include/SnowUI/Core/Widget.h:41-44 | GetText() is then t and nothing else in the tree changes |
| Widgets.Widget.SetBounds | src/Core/Widget.cpp:28-30 | GetBounds() is then r; only this node's bounds change, the children keep theirs |
| Widgets.Widget.AddChild | src/Core/Widget.cpp:32-34 | the child is appended after the existing children, which keep their order and values |
| Widgets.Widget.SetOnClick | include/SnowUI/Widgets/Button.h:15 | only the presence of the callback changes |
| Widgets.Widget.AddProperty | src/Widgets/PropertyGrid.cpp:53-59 | one item with the given name, value and type is appended; the selection is kept and stays valid |
| Widgets.Widget.Clear | src/Widgets/PropertyGrid.cpp:61-64 | no items and selection -1 |
| Widgets.Widget.OnPaint | src/Core/Widget.cpp:9-18 | appends exactly PaintTree of the subtree's value, for every kind |
| Widgets.Widget.PaintChildren | src/Core/Widget.cpp:15-18 | the children paint into the same list, in insertion order |
| Widgets.Widget.OnEvent | src/Core/Widget.cpp:21-26 | the subtree's new value is Dispatch of its old value; the tree invariant is kept |
| Widgets.Widget.ButtonEvent | src/Widgets/Button.cpp:21-37 | the button's new state is Buttons.Step of its old state |
| Widgets.Widget.GridEvent | src/Widgets/PropertyGrid.cpp:35-51 | the grid's new selection is PropertyGrids.Select of its old selection |
| Widgets.Widget.DispatchChildren | src/Core/Widget.cpp:23-25 | after the loop the children's values are DispatchAll of their old values |
| Widgets.Widget.DispatchChild | src/Core/Widget.cpp:24 | child i handles the event and every sibling's subtree is unchanged |
| Layouts.ItemSizeFills | src/Layout/Layout.cpp:22 | n slots of ItemSize and n - 1 gaps of 5 add up to the whole length |
| Layouts.VerticalTiles | src/Layout/Layout.cpp:20-30 | vertical slots keep x and width, start at the top, follow each other 5 apart, and the last ends at the bottom edge |
| Layouts.SlotStep | src/Layout/Layout.cpp:23-29 | each slot starts 5 past the far edge of the previous one along the layout's axis |
| Layouts.SingleSlot | src/Layout/Layout.cpp:20-41 | a single widget gets exactly the bounds it is laid out in |
| Layouts.HorizontalIsTranspose | src/Layout/Layout.cpp:31-41 | the horizontal slots are the vertical slots of the transposed bounds, transposed |
| Layouts.Layout.constructor | src/Layout/Layout.cpp:6-8 | the layout has the given type, no widgets, and spacing 5, equal to the gap SPACING the slots use |
| Layouts.Layout.AddWidget | src/Layout/Layout.cpp:10-13 | the widget is appended to the list |
| Layouts.Layout.DoLayout | src/Layout/Layout.cpp:15-42 | empty or Grid layouts change no bounds; otherwise each widget gets its slot (a repeated widget keeps its last one) and only bounds change |
| Layouts.Layout.Place | src/Layout/Layout.cpp:27 | one SetBounds call: only that widget's bounds change |
| Layouts.Layout.LayOutVertically | src/Layout/Layout.cpp:20-30 | the loop with its running y gives each widget its vertical slot |
| Layouts.Layout.LayOutHorizontally | src/Layout/Layout.cpp:31-41 | the loop with its running x gives each widget its horizontal slot |
| GlfwUtils.AcquireCases | src/Render/GLFWUtils.cpp:14-30 | fails iff disabled, or the count is 0 and glfwInit fails, and then nothing changes; otherwise one more reference, and the library is initialised iff the count was 0 |
| GlfwUtils.ReleaseCases | src/Render/GLFWUtils.cpp:32-45 | at count 0 or when disabled nothing happens; otherwise one reference less, and the library is terminated iff that was the last |
| GlfwUtils.AcquireReleaseBalanced | src/Render/GLFWUtils.cpp:14-45 | both keep the library initialised exactly while the count is positive |
| GlfwUtils.AcquireThenRelease | src/Render/GLFWUtils.cpp:14-45 | a successful acquire followed by a release restores the count |
| GlfwUtils.AcquireNState | src/Render/GLFWUtils.cpp:14-30 | k successful acquires add k and initialise once iff the count was 0 |
| GlfwUtils.ReleaseNState | src/Render/GLFWUtils.cpp:32-45 | k releases of at most the count subtract k and terminate once iff none is left |
| GlfwUtils.PairedUseFromStart | src/Render/GLFWUtils.cpp:14-45 | from program start, k >= 1 acquires then k releases give count 0 with one init and one terminate |
| GlfwUtils.DisabledIsInert | src/Render/GLFWUtils.cpp:27-29 | with GLFW compiled out no sequence of calls changes the state |
| GlfwUtils.Glfw.constructor | src/Render/GLFWUtils.cpp:11 | the counter starts at 0 |
| GlfwUtils.Glfw.Initialize | src/Render/GLFWUtils.cpp:14-30 | the new state and result are Acquire's |
| GlfwUtils.Glfw.Terminate | src/Render/GLFWUtils.cpp:32-45 | the new state is Release's |
| Backends.GlyphCount | src/Render/OpenGLBackend.cpp:230-270 | text draws one block per byte that is not a space |
| Backends.MultiByteCharacter | src/Render/OpenGLBackend.cpp:243-263 | a character outside ASCII draws one block per UTF-8 byte: the two bytes of a superscript three give two adjacent blocks |
| Backends.GlyphShapes | src/Render/OpenGLBackend.cpp:253-260 | each block is a 6 x 12 quad in the text colour at y, with left edge x + 7i for a non-space index i |
| Backends.GlyphsOrdered | src/Render/OpenGLBackend.cpp:243-263 | the blocks stay within the text's cells and come strictly left to right |
| Backends.BlankTextDrawsNothing | src/Render/OpenGLBackend.cpp:246-250 | text of spaces only draws nothing |
| Backends.ExecuteAppend | src/Render/OpenGLBackend.cpp:272-298 | executing two lists one after the other is executing their concatenation |
| Backends.ExecuteRecorded | src/Render/OpenGLBackend.cpp:277-297 | executing recorded operations draws exactly what they asked for, in order; a line comes back with its two endpoints |
| Backends.ExecuteRects | src/Render/OpenGLBackend.cpp:197-211 | with OpenGL a list of rectangles draws one quad per rectangle |
| Backends.ExecuteWithoutGl | src/Render/OpenGLBackend.cpp:187-228 | without OpenGL nothing is drawn |
| Backends.InactiveIsSilent | src/Render/OpenGLBackend.cpp:147-182 | before Initialize, BeginFrame, EndFrame, ExecuteDrawList and Shutdown do nothing, in every backend and GLFW state: a window created before Initialize keeps its GLFW reference through Shutdown |
| Backends.ShutdownIdempotent | src/Render/OpenGLBackend.cpp:147-156 | after Shutdown the backend is not initialised and a second Shutdown does nothing |
| Backends.BeginFrameTracksFramebuffer | src/Render/OpenGLBackend.cpp:158-177 | BeginFrame adopts the framebuffer size, and redoes the viewport iff the size changed |
| Backends.CreateWindowOutcome | src/Render/OpenGLBackend.cpp:30-68 | success iff GLFW is on, a reference is obtained and a window is created: one more reference and the window at the requested size; a failure changes neither |
| Backends.CreateThenDestroy | src/Render/OpenGLBackend.cpp:70-81 | destroying a window just created leaves no window and the GLFW count where it started |
| Backends.LifecycleConsistent | src/Render/OpenGLBackend.cpp:21-177 | every lifecycle step keeps "owns a window iff it has one" |
| Backends.NoWindowShouldClose | src/Render/OpenGLBackend.cpp:83-92 | without a window ShouldClose is true |
| OpenGL.OpenGLBackend.constructor | src/Render/OpenGLBackend.cpp:21-23 | 0 x 0, not initialised, no window, nothing drawn |
| OpenGL.OpenGLBackend.CreateWindow | src/Render/OpenGLBackend.cpp:30-68 | the new backend state, GLFW state and result are Backends.CreateWindow's; nothing is drawn |
| OpenGL.OpenGLBackend.DestroyWindow | src/Render/OpenGLBackend.cpp:70-81 | the new states are Backends.DestroyWindow's |
| OpenGL.OpenGLBackend.ShouldClose | src/Render/OpenGLBackend.cpp:83-92 | GLFW's answer when there is a window, true otherwise |
| OpenGL.OpenGLBackend.SwapBuffers | src/Render/OpenGLBackend.cpp:101-109 | one Swap iff GLFW is on and there is a window |
| OpenGL.OpenGLBackend.Initialize | src/Render/OpenGLBackend.cpp:116-145 | returns true and has Backends.Initialize's effect: size recorded, initialised, viewport iff OpenGL and a window |
| OpenGL.OpenGLBackend.Shutdown | src/Render/OpenGLBackend.cpp:147-156 | the new states are Backends.Shutdown's |
| OpenGL.OpenGLBackend.BeginFrame | src/Render/OpenGLBackend.cpp:158-177 | the new state and trace are Backends.BeginFrame's |
| OpenGL.OpenGLBackend.EndFrame | src/Render/OpenGLBackend.cpp:179-185 | appends Backends.EndFrame: a swap iff initialised with a window |
| OpenGL.OpenGLBackend.ClearScreen | src/Render/OpenGLBackend.cpp:187-195 | one ClearScreen in the colour iff OpenGL |
| OpenGL.OpenGLBackend.DrawRect | src/Render/OpenGLBackend.cpp:197-211 | one quad (x, y)-(x + w, y + h) iff OpenGL |
| OpenGL.OpenGLBackend.DrawLine | src/Render/OpenGLBackend.cpp:213-228 | one segment iff OpenGL |
| OpenGL.OpenGLBackend.DrawText | src/Render/OpenGLBackend.cpp:230-270 | the loop over the string's bytes, with its running curX, appends exactly the glyph blocks, one per non-space byte |
| OpenGL.OpenGLBackend.ExecuteDrawList | src/Render/OpenGLBackend.cpp:272-298 | appends Backends.ExecuteDrawList: nothing before Initialize, else each command's primitives in order |
| OpenGL.OpenGLBackend.ExecuteCommand | src/Render/OpenGLBackend.cpp:277-297 | one command decoded by its tag, a line with endpoint (rect.width, rect.height) |
| OpenGL.OpenGLBackend.Resize | src/Render/OpenGLBackend.cpp:300-319 | always records the size; a viewport only once initialised with OpenGL |
| Skia.SkiaBackend.constructor | src/Render/SkiaBackend.cpp:30-32 | 0 x 0, not initialised, no window, nothing drawn |
| Skia.SkiaBackend.CreateWindow | src/Render/SkiaBackend.cpp:39-78 | the new backend state, GLFW state and result are Backends.CreateWindow's |
| Skia.SkiaBackend.DestroyWindow | src/Render/SkiaBackend.cpp:80-91 | the new states are Backends.DestroyWindow's |
| Skia.SkiaBackend.ShouldClose | src/Render/SkiaBackend.cpp:93-102 | GLFW's answer when there is a window, true otherwise |
| Skia.SkiaBackend.SwapBuffers | src/Render/SkiaBackend.cpp:111-119 | one Swap iff GLFW is on and there is a window |
| Skia.SkiaBackend.Initialize | src/Render/SkiaBackend.cpp:126-152 | returns true and has Backends.Initialize's effect |
| Skia.SkiaBackend.Shutdown | src/Render/SkiaBackend.cpp:154-163 | the new states are Backends.Shutdown's |
| Skia.SkiaBackend.BeginFrame | src/Render/SkiaBackend.cpp:165-183 | the new state and trace are Backends.BeginFrame's |
| Skia.SkiaBackend.EndFrame | src/Render/SkiaBackend.cpp:185-191 | appends Backends.EndFrame |
| Skia.SkiaBackend.ClearScreen | src/Render/SkiaBackend.cpp:193-201 | one ClearScreen in the colour iff OpenGL |
| Skia.SkiaBackend.DrawRect | src/Render/SkiaBackend.cpp:203-217 | one quad (x, y)-(x + w, y + h) iff OpenGL |
| Skia.SkiaBackend.DrawLine | src/Render/SkiaBackend.cpp:219-234 | one segment iff OpenGL |
| Skia.SkiaBackend.DrawText | src/Render/SkiaBackend.cpp:236-268 | the loop over the string's bytes, using kDefaultCharWidth and kDefaultCharHeight, appends exactly the glyph blocks, one per non-space byte |
| Skia.SkiaBackend.ExecuteDrawList | src/Render/SkiaBackend.cpp:270-295 | appends Backends.ExecuteDrawList |
| Skia.SkiaBackend.ExecuteCommand | src/Render/SkiaBackend.cpp:275-294 | one command decoded by its tag |
| Skia.SkiaBackend.Resize | src/Render/SkiaBackend.cpp:297-315 | always records the size; a viewport only once initialised with OpenGL |
| Windows.FrameStartsWithClear | src/Core/Window.cpp:35-49 | with OpenGL a frame draws the begin-frame primitives, the (0.2, 0.2, 0.2, 1) clear, the tree's primitives, then the end-frame ones |
| Windows.PlainFrameSize | src/Core/Window.cpp:42-45 | a frame of a tree of base widgets draws the clear plus one quad per shown widget |
| Windows.Window.constructor | src/Core/Window.cpp:6-9 | a new window has no backend and is a hidden base widget |
| Windows.Window.SetTitle | include/SnowUI/Core/Window.h:21-24 | GetTitle() is then the title |
| Windows.Window.Create | src/Core/Window.cpp:11-23 | title, bounds (0, 0, width, height) and backend are stored; the backend, if any, is initialised at that size; the result is true |
| Windows.Window.Show | src/Core/Window.cpp:25-28 | the window becomes visible and nothing else changes |
| Windows.Window.Render | src/Core/Window.cpp:35-49 | hidden or without backend: no backend call, draw list kept; otherwise the list is Frame(tree) and the backend's effect is RenderFrame's |
| Windows.Window.PaintFrame | src/Core/Window.cpp:42-45 | the draw list is replaced by the clear command followed by the tree's commands |
| Windows.Window.RenderOpenGL | src/Core/Window.cpp:40-48 | BeginFrame, paint, ExecuteDrawList and EndFrame on an OpenGL backend have RenderFrame's effect |
| Windows.Window.RenderSkia | src/Core/Window.cpp:40-48 | the same sequence on a Skia backend |

## Left out

- The widget graph is assumed to be a tree. `Widgets.Widget.AddChild` requires the child's subtree to be disjoint from the parent's. The C++ code does not check this, and sharing or cycles there would paint or dispatch a widget more than once, or forever.
- Widgets.Widget.OnEvent: Button's callback is arbitrary code; the model only counts its calls in a ghost `clicks` field.
- Window is a Widget subclass in C++. Here it holds its widget in `root`. Its inherited members (AddChild, OnEvent, the setters) are `root`'s.
- Windows.Window.Create: the `false` result is unreachable, because both backends' Initialize always returns true. The source sets the bounds before calling Initialize and the model sets them after. No step reads them, so the order makes no difference.
- `Layouts.Layout` lays out any widget objects. It does not require them to be valid trees: only their bounds are written.
- Layouts.Layout.DoLayout: the Grid type has no algorithm in the source and changes nothing, as modelled.
- All values are `real`/`int`. Float rounding, float-to-int conversion of out-of-range values and 32-bit overflow are not modelled. So `ItemSizeFills`, `VerticalTiles` and the row index hold over reals only.
- The backends' `PollEvents` only calls `glfwPollEvents`, which is foreign, so it is not modelled.
- The GL state setup is not traced: window hints, `glfwMakeContextCurrent`, the swap interval, blending, `glColor` and the matrix modes. Only the primitives listed in `Backends.Primitive` are traced.
- The destructors only call `Shutdown`. They are not modelled because Dafny has no destructors.
- The header/implementation mismatch: `IRenderBackend.h` does not declare the windowing members. Both backend classes are modelled from their `.cpp` files, and the window holds one of them through `Windows.Renderer`.
- The `std::mutex` around the GLFW counter is left out, since the counter is modelled sequentially. All console logging is left out.
- The demos under `demos/` are program entry points and console output. They are not modelled.
- Backends.GlyphShapes: a comment in the OpenGL DrawText calls each character's block 6x10, but the code draws 6 x 12 (charHeight 12). The model follows the code.
