# Director core of trance, in Dafny

trance plays hypnotic visual programs. Its `Director` owns the visual that is
currently running, decides when and to what it switches, and renders every
frame to a window, an off-screen capture buffer or a VR headset. This project
models the decision logic of `src/director.cpp` and proves what it promises:

- **Visual selection** (`selection.dfy`, module `Selection`). `change_visual`
  first runs a gate: a draw from `random((2 * fps * length) / 2048)` of 120 or
  more keeps the current visual, unless `length` is 0. It then runs a
  cumulative-weight scan over the program's ordered `(type, weight)` list. All
  counts are `uint32_t`, so the model wraps running totals modulo 2^32.
- **Mirror tiling** (`tiling.dfy`, module `Tiling`). `render_image` scales the
  image to fit the viewport, halving the scale in VR. It then emits the
  `render_texture` quads of a grid that grows outwards from the centre, with
  every other tile flipped.
- **Text layout** (`text_layout.dfy`, module `TextLayout`). `render_text` lays
  out glyph quads with kerning, tab, newline and vertical-tab handling and a
  running bounding box. A post-pass then recentres, scales and offsets the
  vertices.
- **The director** (`director.dfy`, module `DirectorCore`). Class `Director`
  holds the constructor's mode choice, the two-slot visual lifecycle of
  `update`/`change_visual` and the eye dispatch of `render` as methods;
  `view_width`, `resolution` and `off3d` as functions; and `render_image` and
  `render_text` as methods proved equal to the functions of the modules above.
- `reals.dfy` (module `Reals`) gives `std::min`/`std::max` on reals.

Random draws, the VR session status and the result of headset set-up are
inputs. `random(n)` is assumed to return a value below `n`, and 0 for `n == 0`.
`float` arithmetic is modelled by `real`.

Four consequences of the code are easy to miss:

- Take a square image in a square viewport of even side at scale 1. The code's
  guard `>= 0` still admits index 1, so 3 x 3 quads are drawn, not only the
  centre tile (`Tiling.ExactFit`).
- The tiling loop can leave a strip at an edge undrawn. Its guard uses the
  integer halves `_width / 2` and `_height / 2` and ignores the eye offset.
  For an odd width or height the strip is less than one pixel: with an odd
  square side the single tile stops half a pixel short of the right and bottom
  edges (`Tiling.ExactFit`). In VR the strip at the left edge is narrower than
  the eye offset (`Tiling.Coverage` bounds the last column by the offset, not
  by 0).
- The capture buffer has `4 * width * height` bytes computed in `uint32_t`, so
  the size wraps for very large outputs.
- The comment on the gate (src/director.cpp:653-654) promises roughly a one in
  two chance of keeping the visual for a cycle of length 2048. That holds at
  120 fps, where exactly half of the draws keep it, but at 60 fps the draw
  range is exactly 120 and the visual is never kept (`Selection.ReferenceRates`).

## Model

| member | source | states |
|---|---|---|
| Selection.TotalWeight | src/director.cpp:660-664 | The `uint32_t` total of the weights: the exact sum modulo 2^32, and the exact sum when that is below 2^32. |
| Selection.PickFrom | src/director.cpp:666-673 | The scan from entry `k` on: the first index whose wrapped running total exceeds the draw, or nothing; any index it returns lies between `k` and the end of the list. |
| Selection.Pick | src/director.cpp:666-673 | The scan from the first entry; any index it returns is an index of the list. |
| Selection.PickedType | src/director.cpp:665-673 | The type the scan selects; a selected type always belongs to an entry of positive weight. |
| Selection.Threshold | src/director.cpp:656 | The gate's draw range `(2 * fps * length) / 2048`, with the product wrapped to `uint32_t`; it is always below 2^21. |
| Selection.Proceeds | src/director.cpp:656-658 | The gate: a zero length always proceeds, otherwise a draw of 120 or more keeps the current visual. |
| Selection.SumWeights | src/director.cpp:661-664 | The first loop returns the `uint32_t` sum of all weights (the exact sum modulo 2^32), which equals the exact sum when that is below 2^32. |
| Selection.SelectType | src/director.cpp:665-673 | The second loop returns the type of the first entry whose wrapped running total exceeds the draw `r`, or nothing; any returned type belongs to an entry of positive weight. |
| Selection.PickFromSpec | src/director.cpp:668-673 | A scan started at entry `k` returns an entry whose running total exceeds `r` while no earlier running total does; when it returns nothing, no running total from `k` on exceeds `r`. |
| Selection.PickIsFirstExceeding | src/director.cpp:666-673 | The picked entry is the first whose running total exceeds the draw; nothing is picked if and only if no running total exceeds it. |
| Selection.PickExists | src/director.cpp:661-673 | A draw below the wrapped total always selects an entry and a type, with or without wrap-around. |
| Selection.ZeroWeightNeverPicked | src/director.cpp:668-673 | An entry of weight 0 is never selected, with or without wrap-around. |
| Selection.PickInterval | src/director.cpp:661-673 | Without wrap-around, entry `k` is selected exactly for the draws in `[Prefix(k), Prefix(k + 1))`; both directions are proved. |
| Selection.PicksBelow | src/director.cpp:661-673 | Counts how many of the draws below `n` select entry `k`: the part of `[Prefix(k), Prefix(k + 1))` that lies below `n`. |
| Selection.PickShare | src/director.cpp:661-673 | The selection is exactly proportional: of the `Sum` equally likely draws, precisely `weight(k)` select entry `k`. |
| Selection.GateProceedsBelowLimit | src/director.cpp:655-658 | Whenever `(2 * fps * length) / 2048` is at most 120, every possible gate draw lets the transition proceed. |
| Selection.GateSkipShare | src/director.cpp:656-658 | For a nonzero length, exactly the draws from 120 up keep the visual: of the draws below `n`, `n - 120` keep it (none when `n <= 120`). |
| Selection.ReferenceRates | src/director.cpp:653-658 | At 60 fps a cycle of length 2048 gives a draw range of exactly 120, so it never skips. At 120 fps the range is 240 and exactly half of the draws skip. |
| Tiling.ImageFrame | src/director.cpp:371-380 | The frame built from the viewport and image sizes has positive tile sizes and non-negative half extents. |
| Tiling.ImageFits | src/director.cpp:371-387 | The scaled image fits the viewport, or each eye's half of it in VR. The tiling is centred at `_width / 2` and `_height / 2` in integer division. |
| Tiling.ImageFills | src/director.cpp:375-380 | Outside VR the scaled image fills the viewport along at least one axis. |
| Tiling.ImageAspect | src/director.cpp:372-380 | Scaling keeps the image's aspect ratio. |
| Tiling.ScaleFits | src/director.cpp:375-380 | A side scaled by at most `bound / side` (halved in VR) is positive and at most `bound` (half of it in VR); with exactly that scale outside VR it equals `bound`. |
| Tiling.Mirror | src/director.cpp:384-397 | The quad `i` tiles left or right and `j` tiles up or down from the centre tile, flipped horizontally when `i` is odd and vertically when `j` is odd. |
| Tiling.CellQuads | src/director.cpp:384-397 | One visit to `(i, j)`: the up-left tile, then its right mirror when `i != 0`, its down mirror when `j != 0` and the diagonal one when both are nonzero. |
| Tiling.Column | src/director.cpp:383-398 | The inner loop over rows 0 to `n - 1` of column `i`. |
| Tiling.Grid | src/director.cpp:382-399 | The outer loop over columns 0 to `m - 1`, each with its inner loop. |
| Tiling.TileCount | src/director.cpp:382-383 | How many indices the loop guard `half - i * size + size / 2 >= 0` admits. |
| Tiling.MirrorTiling | src/director.cpp:382-399 | All draws of one call: the grid over the tile counts of both axes. |
| Tiling.LoopGuard | src/director.cpp:382-383 | The loop guard `half - i * size + size / 2 >= 0` holds exactly for `i < TileCount`, and `TileCount >= 1`, so both loops terminate for a positive tile size. |
| Tiling.CellShape | src/director.cpp:384-397 | A visit to `(i, j)` draws 1 quad at the centre, 2 when exactly one index is nonzero and 4 otherwise. Every quad is one tile in size and flipped on exactly the axes whose index is odd. |
| Tiling.ColumnSize | src/director.cpp:383-398 | Rows 0 to `n - 1` of column `i` draw `2n - 1` quads for column 0 and `4n - 2` for any other column. |
| Tiling.GridSize | src/director.cpp:382-399 | An m-by-n visit draws `(2m - 1)(2n - 1)` quads. |
| Tiling.CellPlaced | src/director.cpp:384-397 | Every quad of a visit to `(i, j)` lies `i` tiles across and `j` tiles down or up from the centre tile, with the flips of that distance. |
| Tiling.ColumnPlaced | src/director.cpp:383-398 | Every quad of a column lies at one of the visited row distances. |
| Tiling.GridPlaced | src/director.cpp:382-399 | Every quad lies a whole number of tiles from the centre tile, inside the visited range, and is flipped exactly on the axes whose distance is odd, so neighbouring tiles mirror each other. |
| Tiling.Coverage | src/director.cpp:382-383 | Where the loops stop: the last visited column starts left of the eye offset and ends right of `offset + 2 * (_width / 2)`, and the column before it does not start left of the offset. Rows likewise against 0 and `2 * (_height / 2)`. |
| Tiling.ExactFit | src/director.cpp:371-399 | A square image in a square viewport is drawn at scale 1. It gives 9 quads for an even side and 1 for an odd side; for an odd side that tile ends half a pixel short of the right and bottom edges. |
| TextLayout.Step | src/director.cpp:435-473 | One loop iteration: kerning against the previous character first, then the space, tab, newline and vertical-tab cases, otherwise a glyph quad of four vertices, the min/max widening of the box and the glyph's advance. |
| TextLayout.RunFrom | src/director.cpp:434-474 | The layout loop over `text` from a given pen state. |
| TextLayout.Run | src/director.cpp:422-474 | The layout loop from `x = y = 0`, previous character 0 and the ±256 sentinel box. |
| TextLayout.Place | src/director.cpp:476-481 | The post-pass on one vertex: subtract the box centre, scale, add the offset divided by the output size. |
| TextLayout.Layout | src/director.cpp:409-482 | All vertices of a `render_text` call: none for empty text, otherwise the layout followed by the post-pass. |
| TextLayout.PostPass | src/director.cpp:475-482 | The post-pass yields one vertex per laid-out vertex. |
| TextLayout.RunFromAppend | src/director.cpp:434-474 | Laying out `a + b` is laying out `b` from the pen state that `a` leaves. |
| TextLayout.VertexCount | src/director.cpp:434-474 | Each character other than space, tab, newline and vertical tab appends exactly four vertices; those four append none. |
| TextLayout.VerticalDescent | src/director.cpp:446-452 | The pen's y moves by the text's descent and by nothing else. |
| TextLayout.DescentLines | src/director.cpp:446-452 | The descent is one line spacing per newline plus four per vertical tab. |
| TextLayout.LineWidthAppend | src/director.cpp:436-445 | A line's width grows, per appended character, by its kerning after the previous character plus its advance. |
| TextLayout.HorizontalPosition | src/director.cpp:436-473 | Within a line, x grows by kerning for every character (control characters included), plus the space advance for a space, four times it for a tab, nothing for a vertical tab and the glyph's advance otherwise. The previous character is the line's last. |
| TextLayout.NewlineResetsX | src/director.cpp:446-449 | After a newline the pen restarts at x = 0, whatever came before it. |
| TextLayout.StepTracks | src/director.cpp:455-472 | One character keeps the running box tight: it bounds every vertex, and each side is the sentinel or is attained by a vertex. |
| TextLayout.QuadTracks | src/director.cpp:465-472 | Appending a glyph's four corners and widening the box with min/max keeps the box tight. |
| TextLayout.RunTracks | src/director.cpp:428-474 | After the layout loop the box bounds every vertex, and each side is the sentinel or is attained. |
| TextLayout.Extremes | src/director.cpp:428-474 | Given at least one glyph and all corners within the ±256 sentinels, the running box is the exact bounding box of the vertices. |
| TextLayout.Attained | src/director.cpp:428-472 | A box side that bounds every vertex and is attained unless it is the sentinel is attained, once every vertex lies within the sentinels. |
| TextLayout.AffineCentre | src/director.cpp:476-481 | The map `(v - centre) * scale + o` with a positive scale keeps the order of values, and sends the two extremes to points whose midpoint is `o`. |
| TextLayout.PlaceX | src/director.cpp:476-480 | The post-pass maps the leftmost and rightmost vertices to the extremes of the output's x, with their midpoint at the x offset. |
| TextLayout.PlaceY | src/director.cpp:477-481 | The post-pass maps the topmost and bottommost vertices to the extremes of the output's y, with their midpoint at the y offset. |
| TextLayout.PostPassCentred | src/director.cpp:475-482 | For a positive scale and a tight box, the output's x and y extremes have their midpoints at the offsets. |
| TextLayout.Centred | src/director.cpp:409-482 | For a positive scale, at least one glyph and all corners within the sentinels, the emitted bounding box is centred on `(offset.x / width, offset.y / height)`. |
| Reals.Min | src/director.cpp:469-471 | `std::min` returns one of its arguments and is at most both. |
| Reals.Max | src/director.cpp:470-472 | `std::max` returns one of its arguments and is at least both. |
| DirectorCore.EyeShift | src/director.cpp:340-342 | `off3d`'s shift before the depth factor: `width / (8 * multiplier)` for the left eye, its negation for the right eye, none for a zero multiplier. |
| DirectorCore.EyeShiftMirror | src/director.cpp:340-342 | The right eye is shifted by exactly the negation of the left eye's shift. |
| DirectorCore.EyeShiftDirection | src/director.cpp:340-342 | For a positive multiplier the left eye shifts right and the right eye left, and a larger multiplier shifts both less. |
| DirectorCore.Director.constructor | src/director.cpp:23-167 | VR is enabled when asked for and, in realtime, only if the headset comes up. Only then is the output resized to the eye texture. Off-screen mode gets a fresh read-back buffer. The image and text depths are the configured ones. The first `change_visual(0)` never skips and fills the active slot with the type the scan picks; one visual has then been created, or none when nothing is picked. The result satisfies the lifecycle invariant. |
| DirectorCore.Director.SetProgram | src/director.cpp:177-180 | Replaces the program and nothing else, keeping the lifecycle invariant. |
| DirectorCore.Director.ChangeVisual | src/director.cpp:651-700 | A skipping gate changes nothing. Otherwise the old active visual moves to the retiring slot, and a fresh visual of the picked type becomes active. If nothing is picked, the active slot keeps what the swap put there. The lifecycle invariant is kept. |
| DirectorCore.Director.Update | src/director.cpp:182-218 | The retiring visual is dropped before the cycler advances. Afterwards the retiring slot holds nothing or the just-replaced active visual, so a retired visual survives exactly one update; a new visual is counted exactly when one becomes active. The result is false only on a quit request in realtime VR. Otherwise, in realtime VR, `started == HmdPresent && !DisplayLost`, and a recenter request calls recenter, then clears the flag if recentering failed. |
| DirectorCore.Director.ViewWidth | src/director.cpp:328-331 | In VR each eye gets half the output width (rounded down), otherwise the whole width. |
| DirectorCore.Director.Resolution | src/director.cpp:333-336 | The resolution covers both eyes: at least the view width, and in VR less than two pixels wider than both eyes together; its height is the output height. |
| DirectorCore.Director.Off3d | src/director.cpp:338-345 | No horizontal shift without VR or with a zero multiplier. In VR the shift is the eye shift of the current eye times the text or image depth. The vertical offset is always 0. |
| DirectorCore.Director.Render | src/director.cpp:220-276 | Without VR the visual renders exactly once, as the left eye. In VR it renders twice: the left eye at viewport x 0, then the right eye at `view_width()`. Realtime VR renders nothing until the headset has started. The lifecycle invariant is kept. |
| DirectorCore.Director.RenderEyes | src/director.cpp:249-275 | The eye loop renders the left eye at x 0, then the right eye at `view_width()`, and leaves the right eye selected, keeping the lifecycle invariant. |
| DirectorCore.Director.RenderImage | src/director.cpp:347-404 | The quads drawn are the mirror tiling of the image frame at the image eye offset. There are `(2m - 1)(2n - 1)` of them. |
| DirectorCore.Director.TileLoops | src/director.cpp:382-399 | The nested loops emit exactly the m-by-n mirror grid, with `m` and `n` the guard's tile counts. |
| DirectorCore.Director.Visit | src/director.cpp:384-397 | One visit emits the base tile, then its mirrors to the right, below and diagonally, each only when its side differs from the base. |
| DirectorCore.Director.RenderText | src/director.cpp:406-482 | Empty text draws nothing. Otherwise it draws the laid-out, recentred vertices, four for each printable character. |
| DirectorCore.Director.LayOut | src/director.cpp:422-474 | The layout loop leaves exactly the pen, vertices and running box of the character-by-character layout. |
| DirectorCore.Director.Recentre | src/director.cpp:475-482 | The in-place post-pass replaces every vertex by its recentred, scaled and offset image. |

## Left out

- OpenGL work is not modelled: shader compilation and linking, buffers, framebuffers (`init_framebuffer`), uniforms, `render_spiral`, `render_texture`'s uniform pushes, the colour-conversion pass and the `glGetTexImage` read-back. It consists of foreign GPU calls with no observable result here. `render_texture` calls are recorded as `Quad` values.
- The VR runtime is not modelled: `init_oculus_rift`, pose prediction, swap-chain commit and frame submission. Set-up is an input `VrInit`. Its layer viewports start at 0 and `fw / 2`, which is `view_width()` after the resize, so both VR branches of `render` share one eye loop. A failing `ovr_GetSessionStatus` leaves the status uninitialised in the source; here the status is always an input.
- The window, theme preloading, logging to `std::cerr` and the `random_chance(1024)` "lost focus" message are I/O and are left out.
- Visuals and their `Cycler`, `VisualApi` (whose `update()`, called first in `update`, advances the state visuals read), `random` and `random_chance` come from headers that are not part of this model. A visual is a value with an id and an advance counter. The cycler's `complete()` and `length()` and all random draws are inputs to `Update`, `ChangeVisual` and the constructor.
- Alpha, zoom and colour uniforms, the glyph atlas binding and the final `glDrawArrays` are GPU-side and left out. `RenderText` returns the vertex list the draw would use; the static vector that keeps it between calls is not modelled.
- Floating-point rounding is not modelled: `float` is `real`. Zero sizes do not terminate or divide by zero in the source. A zero `_width` or `_height` makes `scale` 0 in `render_image`, so both tile sizes are 0 and the outer guard holds for every `i`. A zero-width image loops forever in the outer loop and a zero-height one in the inner loop. A zero output size or glyph texture size divides by zero in `render_text`. The model instead requires positive sizes for `RenderImage` and `RenderText`.
- Text: the source's `std::string` is read one byte at a time (`uint32_t current = text[i]`). Each model `char` stands for one byte of the string, so `VertexCount` and `RenderText` count bytes and a multi-byte UTF-8 character draws one quad per byte. A byte of 0x80 or more reaches the font sign-extended where `char` is signed; the font lookups are inputs here, so the model does not distinguish the two readings.
- DirectorCore.Director.ChangeVisual: when the scan selects nothing (all weights zero, or a wrapped total), the source compares an uninitialised enum. The model assumes no visual is created, so the active slot keeps what the swap put there.
- DirectorCore.Director.Update: requires an active visual. The source dereferences `_visual` unconditionally.
- Selection.PickShare: assumes the weights sum to less than 2^32. With wrap-around the scan still runs as modelled (`SelectType`), but selection need not be proportional, and `PickInterval`/`PicksBelow` carry the same assumption.
- `program()`, `vr_enabled()` and `get_screen_data()` are plain getters of the fields `program`, `vrEnabled` and `screenData`.
