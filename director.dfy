/** The `Director` object that owns the running visual and renders every frame:
    the choice between window, off-screen and VR output made when it is built,
    the two-slot visual lifecycle driven by `update`, the eye dispatch of
    `render`, and the drawing helpers `view_width`, `resolution`, `off3d`,
    `render_image` and `render_text`. GPU, window and VR-runtime calls are
    reduced to their inputs (a session status, the outcome of VR set-up) and
    their observable outputs (render events, quads, vertices). */
module DirectorCore {

  import opened Selection
  import opened Tiling
  import opened TextLayout
  import opened Reals

  /** A visual instance. `id` tells instances apart (each `new` makes a fresh
      one); `advances` counts the frames its cycler has been advanced. */
  datatype Visual = Visual(id: nat, kind: VisualType, advances: nat)

  /** The program's settings the director reads: the ordered weighted visual
      types and the global frame rate. */
  datatype Program = Program(visualTypes: seq<WeightedType>, fps: Uint32)

  /** What the VR runtime reports in `update`. */
  datatype SessionStatus = SessionStatus(
    isVisible: bool, hmdPresent: bool, displayLost: bool, shouldQuit: bool, shouldRecenter: bool)

  /** Outcome of setting up the headset: failure (session or framebuffer), or
      the size of the eye texture, both eyes side by side. */
  datatype VrInit = Failed | Ready(fw: Uint32, fh: Uint32)

  /** Calls made into the VR runtime on a recenter request. */
  datatype VrCall = Recenter | ClearRecenterFlag

  /** One call of the active visual's `render`: which eye, and the left edge
      of the viewport it draws into. */
  datatype RenderEvent = RenderEvent(right: bool, viewportX: Uint32)

  /** Horizontal eye offset of `off3d` before the depth factor is applied:
      `width / (8 * multiplier)` for the left eye and its negation for the
      right eye, and none for a zero multiplier. */
  function EyeShift(width: Uint32, multiplier: real, right: bool): real
  {
    if multiplier == 0.0 then 0.0
    else if !right then width as real / (8.0 * multiplier)
    else width as real / -(8.0 * multiplier)
  }

  /** The two eyes are shifted by the same amount in opposite directions. */
  lemma EyeShiftMirror(width: Uint32, multiplier: real)
    ensures EyeShift(width, multiplier, true) == -EyeShift(width, multiplier, false)
  {
    if multiplier != 0.0 {
      var d := 8.0 * multiplier;
      assert width as real / -d == -(width as real / d) by {
        assert (width as real / -d) * d == -(width as real);
      }
    }
  }

  /** For a positive multiplier the left eye moves right and the right eye
      left, and a larger multiplier moves them less. */
  lemma EyeShiftDirection(width: Uint32, m1: real, m2: real)
    requires 0.0 < m1 <= m2
    ensures 0.0 <= EyeShift(width, m2, false) <= EyeShift(width, m1, false)
    ensures EyeShift(width, m1, true) <= EyeShift(width, m2, true) <= 0.0
  {
    EyeShiftMirror(width, m1);
    EyeShiftMirror(width, m2);
    var w := width as real;
    assert w / (8.0 * m2) <= w / (8.0 * m1) by {
      assert (w / (8.0 * m2)) * (8.0 * m2) == w;
      assert (w / (8.0 * m1)) * (8.0 * m1) == w;
    }
  }

  class Director {
    const width: Uint32
    const height: Uint32
    const realtime: bool
    /** `_oculus.enabled`: output goes to a headset. */
    const vrEnabled: bool
    /** `_oculus.started`: the headset is present and its display is live. */
    var started: bool
    /** `_oculus.rendering_right`: the eye being drawn. */
    var renderingRight: bool
    var program: Program
    /** `_visual`, the active slot. */
    var active: Option<Visual>
    /** `_old_visual`, the slot holding the visual replaced this frame. */
    var retiring: Option<Visual>
    /** Number of visuals created so far; the next one gets this id. */
    var created: nat
    /** Calls made into the VR runtime, in order. */
    var vrCalls: seq<VrCall>
    /** `_screen_data`: the RGBA read-back buffer of off-screen rendering. */
    const screenData: array?<bv8>
    const imageDepth: real
    const textDepth: real

    /** Every visual in a slot was created by this director, the two slots
        never hold the same visual, and the read-back buffer exists exactly
        when rendering off-screen. */
    ghost predicate Valid()
      reads this
    {
      (active.Some? ==> active.value.id < created) &&
      (retiring.Some? ==> retiring.value.id < created) &&
      (active.Some? && retiring.Some? ==> active.value.id != retiring.value.id) &&
      (realtime <==> screenData == null) &&
      (screenData != null ==> screenData.Length == Wrap(4 * (width as int) * (height as int)))
    }

    /** Set-up: VR is enabled when asked for and, in realtime, when the
        headset comes up (which also resizes the output to the eye texture);
        off-screen rendering gets a read-back buffer of 4 bytes per pixel;
        then a first visual is chosen with `change_visual(0)`, which never
        skips. `pickDraw` is the value of `random(total)`. */
    constructor(windowWidth: Uint32, windowHeight: Uint32, program: Program,
                realtime: bool, oculusRift: bool, vrInit: VrInit,
                imageDepth: real, textDepth: real, pickDraw: nat)
      requires InRange(pickDraw, TotalWeight(program.visualTypes))
      ensures vrEnabled == (oculusRift && (realtime ==> vrInit.Ready?))
      ensures realtime && oculusRift && vrInit.Ready? ==> width == vrInit.fw && height == vrInit.fh
      ensures !(realtime && oculusRift && vrInit.Ready?) ==> width == windowWidth && height == windowHeight
      ensures !realtime ==> fresh(screenData)
      ensures !started && !renderingRight && vrCalls == []
      ensures this.program == program && this.realtime == realtime
      ensures this.imageDepth == imageDepth && this.textDepth == textDepth
      ensures retiring == None
      ensures created == (if active.Some? then 1 else 0)
      ensures active == match PickedType(program.visualTypes, pickDraw)
                        case Some(t) => Some(Visual(0, t, 0))
                        case None => None
      ensures Valid()
    {
      var vr := false;
      var w, h := windowWidth, windowHeight;
      if oculusRift {
        if realtime {
          match vrInit
          case Failed =>
            vr := false;
          case Ready(fw, fh) =>
            vr := true;
            w, h := fw, fh;
        } else {
          vr := true;
        }
      }
      width, height := w, h;
      this.realtime := realtime;
      vrEnabled := vr;
      if realtime {
        screenData := null;
      } else {
        screenData := new bv8[Wrap(4 * (w as int) * (h as int))];
      }
      this.program := program;
      this.imageDepth, this.textDepth := imageDepth, textDepth;
      started, renderingRight := false, false;
      active, retiring, created := None, None, 0;
      vrCalls := [];
      new;
      ChangeVisual(0, 0, pickDraw);
    }

    method SetProgram(p: Program)
      modifies this`program
      ensures program == p
      ensures old(Valid()) ==> Valid()
    {
      program := p;
    }

    /** `change_visual(length)`. The gate draws from `random(Threshold)`; a
        nonzero length with a draw of 120 or more keeps everything as it is.
        Otherwise the slots are swapped, so the active visual is retired, and
        the weighted scan picks the type of a fresh active visual. When the
        scan finds nothing (all weights zero) the active slot keeps what the
        swap put there. */
    method ChangeVisual(length: Uint32, gateDraw: nat, pickDraw: nat)
      modifies this`active, this`retiring, this`created
      requires InRange(gateDraw, Threshold(program.fps, length))
      requires InRange(pickDraw, TotalWeight(program.visualTypes))
      ensures !Proceeds(length, gateDraw) ==>
        active == old(active) && retiring == old(retiring) && created == old(created)
      ensures Proceeds(length, gateDraw) ==> retiring == old(active)
      ensures Proceeds(length, gateDraw) ==>
        match PickedType(program.visualTypes, pickDraw)
        case Some(t) => active == Some(Visual(old(created), t, 0)) && created == old(created) + 1
        case None => active == old(retiring) && created == old(created)
      ensures old(Valid()) ==> Valid()
    {
      if length != 0 && gateDraw >= 120 {
        return;
      }
      active, retiring := retiring, active;
      var total := SumWeights(program.visualTypes);
      assert InRange(pickDraw, total);
      var t := SelectType(program.visualTypes, pickDraw);
      if t.Some? {
        active := Some(Visual(created, t.value, 0));
        created := created + 1;
      }
    }

    /** `update()`: the retiring visual is dropped, the active visual's cycler
        advances, and a completed cycle of length `cycleLength` offers a
        transition. In realtime VR the session status is then handled: quit
        ends the loop, a recenter request is passed on (and the flag cleared
        when recentering fails), and the started flag follows the headset. */
    method Update(complete: bool, cycleLength: Uint32, gateDraw: nat, pickDraw: nat,
                  status: SessionStatus, recenterOk: bool) returns (keepRunning: bool)
      modifies this`active, this`retiring, this`created, this`started, this`vrCalls
      requires Valid() && active.Some?
      requires complete ==> InRange(gateDraw, Threshold(program.fps, cycleLength))
      requires complete ==> InRange(pickDraw, TotalWeight(program.visualTypes))
      ensures Valid()
      ensures keepRunning == !(realtime && vrEnabled && status.shouldQuit)
      ensures var advanced := old(active.value).(advances := old(active.value.advances) + 1);
        if complete && Proceeds(cycleLength, gateDraw) then
          retiring == Some(advanced) &&
          active == (match PickedType(program.visualTypes, pickDraw)
                     case Some(t) => Some(Visual(old(created), t, 0))
                     case None => None) &&
          created == old(created) + (if active.Some? then 1 else 0)
        else
          retiring == None && active == Some(advanced) && created == old(created)
      ensures keepRunning && realtime && vrEnabled ==> started == (status.hmdPresent && !status.displayLost)
      ensures !keepRunning || !(realtime && vrEnabled) ==> started == old(started)
      ensures vrCalls == old(vrCalls) +
        if keepRunning && realtime && vrEnabled && status.shouldRecenter then
          [Recenter] + (if recenterOk then [] else [ClearRecenterFlag])
        else []
    {
      retiring := None;
      active := Some(active.value.(advances := active.value.advances + 1));
      if complete {
        ChangeVisual(cycleLength, gateDraw, pickDraw);
      }
      if realtime && vrEnabled {
        if status.shouldQuit {
          return false;
        }
        if status.shouldRecenter {
          vrCalls := vrCalls + [Recenter];
          if !recenterOk {
            vrCalls := vrCalls + [ClearRecenterFlag];
          }
        }
        started := status.hmdPresent && !status.displayLost;
      }
      return true;
    }

    /** `view_width()`: each eye gets half the output width in VR. */
    function ViewWidth(): (w: Uint32)
      reads this
      ensures !vrEnabled ==> w == width
      ensures vrEnabled ==> 2 * w <= width <= 2 * w + 1
    {
      if vrEnabled then width / 2 else width
    }

    /** `resolution()`: the whole output, both eyes together. */
    function Resolution(): (r: (real, real))
      reads this
      ensures r.0 >= ViewWidth() as real && r.1 == height as real
      ensures vrEnabled ==> r.0 - 2.0 * ViewWidth() as real < 2.0
    {
      (width as real, height as real)
    }

    /** `off3d(multiplier, text)`: the eye shift scaled by the text or image
        depth; vertical offset is always zero, and nothing shifts without VR. */
    function Off3d(multiplier: real, text: bool): (r: (real, real))
      reads this
      ensures r.1 == 0.0
      ensures !vrEnabled || multiplier == 0.0 ==> r.0 == 0.0
      ensures vrEnabled ==>
        r.0 == EyeShift(width, multiplier, renderingRight) * (if text then textDepth else imageDepth)
    {
      var x := if !vrEnabled || multiplier == 0.0 then 0.0
        else if !renderingRight then width as real / (8.0 * multiplier)
        else width as real / -(8.0 * multiplier);
      (x * (if text then textDepth else imageDepth), 0.0)
    }

    /** `render()` as the sequence of calls into the active visual. Without VR
        the visual draws once as the left eye. In VR both eyes draw, left then
        right, the right one from `view_width()` on; in realtime VR only once
        the headset has started. (The headset's layer viewports start at 0 and
        `fw / 2`, which is `view_width()` after set-up.) */
    method Render() returns (events: seq<RenderEvent>)
      modifies this`renderingRight
      ensures !vrEnabled ==> events == [RenderEvent(false, 0)] && !renderingRight
      ensures vrEnabled && (!realtime || started) ==>
        events == [RenderEvent(false, 0), RenderEvent(true, ViewWidth())] && renderingRight
      ensures vrEnabled && realtime && !started ==> events == [] && renderingRight == old(renderingRight)
      ensures old(Valid()) ==> Valid()
    {
      if !vrEnabled {
        renderingRight := false;
        events := [RenderEvent(false, 0)];
      } else if realtime {
        events := [];
        if started {
          events := RenderEyes();
        }
      } else {
        events := RenderEyes();
      }
    }

    /** The eye loop of `render`. */
    method RenderEyes() returns (events: seq<RenderEvent>)
      modifies this`renderingRight
      ensures events == [RenderEvent(false, 0), RenderEvent(true, ViewWidth())] && renderingRight
      ensures old(Valid()) ==> Valid()
    {
      events := [];
      var eye := 0;
      while eye < 2
        invariant 0 <= eye <= 2
        invariant events == [RenderEvent(false, 0), RenderEvent(true, ViewWidth())][..eye]
        invariant eye > 0 ==> renderingRight == (eye == 2)
      {
        renderingRight := eye == 1;
        events := events + [RenderEvent(renderingRight, if renderingRight then ViewWidth() else 0)];
        eye := eye + 1;
      }
    }

    /** The draw calls of `render_image` for an image of the given size: the
        mirror tiling of the scaled image, shifted by the image eye offset. */
    method RenderImage(imageWidth: nat, imageHeight: nat, multiplier: real) returns (quads: seq<Quad>)
      requires width > 0 && height > 0 && imageWidth > 0 && imageHeight > 0
      ensures var f := ImageFrame(width, height, vrEnabled, Off3d(multiplier, false).0, imageWidth, imageHeight);
        quads == MirrorTiling(f) &&
        |quads| == (2 * TileCount(f.halfWidth, f.tileWidth) - 1) * (2 * TileCount(f.halfHeight, f.tileHeight) - 1)
    {
      var offx3d := Off3d(multiplier, false).0;
      var f := ImageFrame(width, height, vrEnabled, offx3d, imageWidth, imageHeight);
      quads := TileLoops(f);
    }

    /** The nested loops of `render_image` over a frame: column `i` and row `j`
        run from 0 while the tile at that distance still reaches the
        viewport's middle, and each visit draws the tile and its mirror images. */
    static method TileLoops(f: Frame) returns (quads: seq<Quad>)
      requires f.Valid()
      ensures quads == MirrorTiling(f)
      ensures |quads| == (2 * TileCount(f.halfWidth, f.tileWidth) - 1) * (2 * TileCount(f.halfHeight, f.tileHeight) - 1)
    {
      var x, y := f.tileWidth, f.tileHeight;
      var m, n := TileCount(f.halfWidth, x), TileCount(f.halfHeight, y);
      quads := [];
      var i: nat := 0;
      while f.halfWidth - i as real * x + x / 2.0 >= 0.0
        invariant i <= m
        invariant quads == Grid(f, i, n)
        decreases m - i
      {
        LoopGuard(f.halfWidth, x, i);
        var j: nat := 0;
        while f.halfHeight - j as real * y + y / 2.0 >= 0.0
          invariant j <= n
          invariant quads == Grid(f, i, n) + Column(f, i, j)
          decreases n - j
        {
          LoopGuard(f.halfHeight, y, j);
          var cell := Visit(f, i, j);
          quads := quads + cell;
          j := j + 1;
        }
        LoopGuard(f.halfHeight, y, j);
        i := i + 1;
      }
      LoopGuard(f.halfWidth, x, i);
      GridSize(f, m, n);
    }

    /** One visit of the inner loop: the tile i columns left of and j rows
        above the centre, then its mirror images to the right, below, and
        both, each drawn only when that side differs from the first. */
    static method Visit(f: Frame, i: nat, j: nat) returns (cell: seq<Quad>)
      ensures cell == CellQuads(f, i, j)
    {
      var x, y := f.tileWidth, f.tileHeight;
      var x1 := f.offset + f.halfWidth - x / 2.0;
      var x2 := f.offset + f.halfWidth + x / 2.0;
      var y1 := f.halfHeight - y / 2.0;
      var y2 := f.halfHeight + y / 2.0;
      var dx, dy := i as real * x, j as real * y;
      cell := [Quad(x1 - dx, y1 - dy, x2 - dx, y2 - dy, i % 2 != 0, j % 2 != 0)];
      assert cell[0] == Mirror(f, i, j, false, false) by {
        var r := Mirror(f, i, j, false, false);
        assert cell[0].left == r.left && cell[0].top == r.top && cell[0].right == r.right && cell[0].bottom == r.bottom;
      }
      if i != 0 {
        cell := cell + [Quad(x1 + dx, y1 - dy, x2 + dx, y2 - dy, i % 2 != 0, j % 2 != 0)];
        assert cell[1] == Mirror(f, i, j, true, false);
      }
      if j != 0 {
        cell := cell + [Quad(x1 - dx, y1 + dy, x2 - dx, y2 + dy, i % 2 != 0, j % 2 != 0)];
        assert cell[|cell| - 1] == Mirror(f, i, j, false, true);
      }
      if i != 0 && j != 0 {
        cell := cell + [Quad(x1 + dx, y1 + dy, x2 + dx, y2 + dy, i % 2 != 0, j % 2 != 0)];
        assert cell[3] == Mirror(f, i, j, true, true);
      }
    }

    /** `render_text`: the vertices handed to the GPU and whether a draw is
        issued. Empty text returns at once; otherwise the layout loop builds
        one quad per printable character with a running box, and the post-pass
        recentres, scales and offsets every vertex in place. */
    method RenderText(text: seq<char>, font: Font, offsetX: real, offsetY: real, scale: real)
      returns (vertices: seq<Vertex>, drawn: bool)
      requires width > 0 && height > 0 && font.textureWidth > 0.0 && font.textureHeight > 0.0
      ensures drawn <==> text != []
      ensures vertices == Layout(Canvas(font, width as real, height as real), text, offsetX, offsetY, scale)
      ensures |vertices| == 4 * Printable(text)
    {
      var c := Canvas(font, width as real, height as real);
      if text == [] {
        return [], false;
      }
      var pen := LayOut(c, text);
      vertices := Recentre(c, pen.vertices, pen.box, offsetX, offsetY, scale);
      VertexCount(c, Start, text);
      return vertices, true;
    }

    /** The layout loop of `render_text`: kerning first for every character,
        then space, tab, newline and vertical tab move the pen, and any other
        character appends its glyph's four corners and widens the running box. */
    static method LayOut(c: Canvas, text: seq<char>) returns (pen: Pen)
      requires c.Valid()
      ensures pen == Run(c, text)
    {
      var font := c.font;
      var vertices := [];
      var hspace := font.glyph(' ').advance;
      var vspace := font.lineSpacing;
      var x, y := 0.0, 0.0;
      var xmin, ymin, xmax, ymax := 256.0, 256.0, -256.0, -256.0;
      var prev: char := 0 as char;
      var i := 0;
      while i < |text|
        invariant 0 <= i <= |text|
        invariant Pen(x, y, prev, vertices, Box(xmin, ymin, xmax, ymax)) == RunFrom(c, Start, text[..i])
      {
        assert text[..i + 1][..i] == text[..i];
        ghost var p0 := Pen(x, y, prev, vertices, Box(xmin, ymin, xmax, ymax));
        var current := text[i];
        x := x + font.kerning(prev, current);
        prev := current;
        if current == ' ' {
          x := x + hspace;
        } else if current == '\t' {
          x := x + hspace * 4.0;
        } else if current == '\n' {
          y := y + vspace;
          x := 0.0;
        } else if current == VerticalTab {
          y := y + vspace * 4.0;
        } else {
          var g := font.glyph(current);
          var x1 := (x + g.left) / c.width;
          var y1 := (y + g.top) / c.height;
          var x2 := (x + g.left + g.width) / c.width;
          var y2 := (y + g.top + g.height) / c.height;
          var u1 := g.texLeft as real / font.textureWidth;
          var v1 := g.texTop as real / font.textureHeight;
          var u2 := (g.texLeft + g.texWidth) as real / font.textureWidth;
          var v2 := (g.texTop + g.texHeight) as real / font.textureHeight;
          vertices := vertices + [Vertex(x1, y1, u1, v1)];
          vertices := vertices + [Vertex(x2, y1, u2, v1)];
          vertices := vertices + [Vertex(x2, y2, u2, v2)];
          vertices := vertices + [Vertex(x1, y2, u1, v2)];
          xmin := Min(xmin, Min(x1, x2));
          xmax := Max(xmax, Max(x1, x2));
          ymin := Min(ymin, Min(y1, y2));
          ymax := Max(ymax, Max(y1, y2));
          x := x + g.advance;
        }
        assert Pen(x, y, prev, vertices, Box(xmin, ymin, xmax, ymax)) == Step(c, p0, current);
        i := i + 1;
      }
      assert text[..i] == text;
      pen := Pen(x, y, prev, vertices, Box(xmin, ymin, xmax, ymax));
    }

    /** The post-pass of `render_text`, in place over the vertices: subtract
        the box centre, scale, and add the offset as a fraction of the
        viewport. */
    static method Recentre(c: Canvas, laid: seq<Vertex>, b: Box, offsetX: real, offsetY: real, scale: real)
      returns (vertices: seq<Vertex>)
      requires c.Valid()
      ensures vertices == PostPass(laid, b, scale, c.NormX(offsetX), c.NormY(offsetY))
    {
      vertices := laid;
      var k := 0;
      while k < |vertices|
        invariant 0 <= k <= |vertices| == |laid|
        invariant forall q :: 0 <= q < k ==>
          vertices[q] == Place(laid[q], b, scale, c.NormX(offsetX), c.NormY(offsetY))
        invariant forall q :: k <= q < |vertices| ==> vertices[q] == laid[q]
      {
        var v := vertices[k];
        v := v.(x := v.x - (b.xmin + (b.xmax - b.xmin) / 2.0));
        v := v.(y := v.y - (b.ymin + (b.ymax - b.ymin) / 2.0));
        v := v.(x := v.x * scale);
        v := v.(y := v.y * scale);
        v := v.(x := v.x + offsetX / c.width);
        v := v.(y := v.y + offsetY / c.height);
        vertices := vertices[k := v];
        k := k + 1;
      }
    }
  }
}
