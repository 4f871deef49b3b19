/** Glyph layout of `render_text`: the text is laid out character by character
    into one quad (four vertices) per printable glyph, with a running bounding
    box; a post-pass then centres that box at the origin, scales it and moves it
    to the caller's offset. Positions are normalised by the viewport size.
    Glyph metrics, kerning and line spacing come from the font and are left
    uninterpreted; `float` is modelled by `real`. */
module TextLayout {

  import opened Reals

  /** One vertex of the vertex buffer: position and texture coordinate. */
  datatype Vertex = Vertex(x: real, y: real, u: real, v: real)

  /** Metrics of one glyph at the font's character size: its bounds relative
      to the pen, its rectangle in the atlas texture, and its advance. */
  datatype Glyph = Glyph(
    left: real, top: real, width: real, height: real,
    texLeft: int, texTop: int, texWidth: int, texHeight: int,
    advance: real)

  /** A font at its character size: glyph lookup, kerning of a character after
      the previous one, line spacing, and the size of its atlas texture. */
  datatype Font = Font(
    glyph: char -> Glyph,
    kerning: (char, char) -> real,
    lineSpacing: real,
    textureWidth: real,
    textureHeight: real)
  {
    /** The horizontal space of `' '`, reused for tabs. */
    function HSpace(): real
    {
      glyph(' ').advance
    }
  }

  /** A font together with the viewport size the positions are normalised by. */
  datatype Canvas = Canvas(font: Font, width: real, height: real)
  {
    predicate Valid()
    {
      width > 0.0 && height > 0.0 && font.textureWidth > 0.0 && font.textureHeight > 0.0
    }

    /** A pixel offset as a fraction of the viewport size. */
    function NormX(x: real): real
      requires Valid()
    {
      x / width
    }

    function NormY(y: real): real
      requires Valid()
    {
      y / height
    }
  }

  /** The running min/max corners. */
  datatype Box = Box(xmin: real, ymin: real, xmax: real, ymax: real)

  /** The box before any glyph: the sentinels 256 and -256. */
  const Sentinels := Box(256.0, 256.0, -256.0, -256.0)

  /** The state of the layout loop: pen position, previous character (for
      kerning), the vertices emitted so far and the running box. */
  datatype Pen = Pen(x: real, y: real, prev: char, vertices: seq<Vertex>, box: Box)

  /** The pen before the first character; the previous character is NUL. */
  const Start := Pen(0.0, 0.0, 0 as char, [], Sentinels)

  const VerticalTab: char := 11 as char

  /** Characters that move the pen without drawing. */
  predicate IsControl(c: char)
  {
    c == ' ' || c == '\t' || c == '\n' || c == VerticalTab
  }

  /** One iteration of the layout loop. Kerning against the previous character
      is added first, for every character; then space and tab advance, newline
      starts a new line, vertical tab moves down four lines, and any other
      character emits its glyph's quad and advances by the glyph's advance. */
  function Step(c: Canvas, p: Pen, ch: char): Pen
    requires c.Valid()
  {
    var f := c.font;
    var x := p.x + f.kerning(p.prev, ch);
    if ch == ' ' then p.(x := x + f.HSpace(), prev := ch)
    else if ch == '\t' then p.(x := x + f.HSpace() * 4.0, prev := ch)
    else if ch == '\n' then p.(x := 0.0, y := p.y + f.lineSpacing, prev := ch)
    else if ch == VerticalTab then p.(x := x, y := p.y + f.lineSpacing * 4.0, prev := ch)
    else
      var g := f.glyph(ch);
      var x1 := (x + g.left) / c.width;
      var y1 := (p.y + g.top) / c.height;
      var x2 := (x + g.left + g.width) / c.width;
      var y2 := (p.y + g.top + g.height) / c.height;
      var u1 := g.texLeft as real / f.textureWidth;
      var v1 := g.texTop as real / f.textureHeight;
      var u2 := (g.texLeft + g.texWidth) as real / f.textureWidth;
      var v2 := (g.texTop + g.texHeight) as real / f.textureHeight;
      Pen(x + g.advance, p.y, ch,
          p.vertices + [Vertex(x1, y1, u1, v1), Vertex(x2, y1, u2, v1), Vertex(x2, y2, u2, v2), Vertex(x1, y2, u1, v2)],
          Box(Min(p.box.xmin, Min(x1, x2)), Min(p.box.ymin, Min(y1, y2)),
              Max(p.box.xmax, Max(x1, x2)), Max(p.box.ymax, Max(y1, y2))))
  }

  /** The layout loop run over `text` from pen `p`. */
  function RunFrom(c: Canvas, p: Pen, text: seq<char>): Pen
    requires c.Valid()
  {
    if text == [] then p else Step(c, RunFrom(c, p, text[..|text| - 1]), text[|text| - 1])
  }

  /** The layout loop run over the whole text from the start. */
  function Run(c: Canvas, text: seq<char>): Pen
    requires c.Valid()
  {
    RunFrom(c, Start, text)
  }

  /** The post-pass applied to one vertex: subtract the box centre, scale,
      add the normalised offset. */
  function Place(v: Vertex, b: Box, scale: real, ox: real, oy: real): Vertex
  {
    var cx := b.xmin + (b.xmax - b.xmin) / 2.0;
    var cy := b.ymin + (b.ymax - b.ymin) / 2.0;
    Vertex((v.x - cx) * scale + ox, (v.y - cy) * scale + oy, v.u, v.v)
  }

  /** The post-pass over the laid-out vertices with their box. */
  function PostPass(vs: seq<Vertex>, b: Box, scale: real, ox: real, oy: real): (out: seq<Vertex>)
    ensures |out| == |vs|
  {
    seq(|vs|, k requires 0 <= k < |vs| => Place(vs[k], b, scale, ox, oy))
  }

  /** The vertices `render_text` hands to the GPU: none for empty text,
      otherwise the laid-out vertices after the post-pass. */
  function Layout(c: Canvas, text: seq<char>, offsetX: real, offsetY: real, scale: real): seq<Vertex>
    requires c.Valid()
  {
    if text == [] then []
    else
      var p := Run(c, text);
      PostPass(p.vertices, p.box, scale, c.NormX(offsetX), c.NormY(offsetY))
  }

  // ---------------------------------------------------------------------------
  // Reference definitions.

  /** Number of characters that draw a glyph. */
  function Printable(text: seq<char>): nat
  {
    if text == [] then 0
    else Printable(text[..|text| - 1]) + (if IsControl(text[|text| - 1]) then 0 else 1)
  }

  /** Number of occurrences of `ch`. */
  function Occurrences(text: seq<char>, ch: char): nat
  {
    if text == [] then 0
    else Occurrences(text[..|text| - 1], ch) + (if text[|text| - 1] == ch then 1 else 0)
  }

  /** Vertical distance the pen moves over `text` with line spacing `ls`. */
  function Descent(ls: real, text: seq<char>): real
  {
    if text == [] then 0.0
    else
      var ch := text[|text| - 1];
      Descent(ls, text[..|text| - 1]) + (if ch == '\n' then ls else if ch == VerticalTab then ls * 4.0 else 0.0)
  }

  /** Horizontal advance of one character apart from kerning. */
  function CharAdvance(f: Font, ch: char): real
  {
    if ch == ' ' then f.HSpace()
    else if ch == '\t' then f.HSpace() * 4.0
    else if ch == VerticalTab then 0.0
    else f.glyph(ch).advance
  }

  /** Width of a line (no newline in it) written after character `prev`: each
      character adds its kerning against the one before it and its advance. */
  function LineWidth(f: Font, prev: char, line: seq<char>): real
    decreases |line|
  {
    if line == [] then 0.0
    else f.kerning(prev, line[0]) + CharAdvance(f, line[0]) + LineWidth(f, line[0], line[1..])
  }

  /** The last character of `text`, or `prev` when it is empty. */
  function LastOr(prev: char, text: seq<char>): char
  {
    if text == [] then prev else text[|text| - 1]
  }

  // ---------------------------------------------------------------------------
  // Properties.

  lemma {:induction false} RunFromAppend(c: Canvas, p: Pen, a: seq<char>, b: seq<char>)
    requires c.Valid()
    ensures RunFrom(c, p, a + b) == RunFrom(c, RunFrom(c, p, a), b)
    decreases |b|
  {
    if b == [] {
      assert a + b == a;
    } else {
      assert (a + b)[..|a + b| - 1] == a + b[..|b| - 1];
      RunFromAppend(c, p, a, b[..|b| - 1]);
    }
  }

  /** Each printable character appends exactly four vertices; space, tab,
      newline and vertical tab append none. */
  lemma {:induction false} VertexCount(c: Canvas, p: Pen, text: seq<char>)
    requires c.Valid()
    ensures |RunFrom(c, p, text).vertices| == |p.vertices| + 4 * Printable(text)
  {
    if text != [] {
      VertexCount(c, p, text[..|text| - 1]);
    }
  }

  /** The pen moves down by the text's descent (see `DescentLines`: one line
      spacing per newline, four per vertical tab) and nothing else moves it
      vertically. */
  lemma {:induction false} VerticalDescent(c: Canvas, p: Pen, text: seq<char>)
    requires c.Valid()
    ensures RunFrom(c, p, text).y == p.y + Descent(c.font.lineSpacing, text)
  {
    if text != [] {
      VerticalDescent(c, p, text[..|text| - 1]);
    }
  }

  /** The descent is one line spacing per newline and four per vertical tab. */
  lemma {:induction false} DescentLines(ls: real, text: seq<char>)
    ensures Descent(ls, text) == LinesDown(text) as real * ls
  {
    if text != [] {
      var init := text[..|text| - 1];
      DescentLines(ls, init);
      var d: nat := if text[|text| - 1] == '\n' then 1 else if text[|text| - 1] == VerticalTab then 4 else 0;
      assert LinesDown(text) == LinesDown(init) + d;
      assert (LinesDown(init) + d) as real * ls == LinesDown(init) as real * ls + d as real * ls;
    }
  }

  /** Lines the pen moves down: one per newline, four per vertical tab. */
  function LinesDown(text: seq<char>): nat
  {
    Occurrences(text, '\n') + 4 * Occurrences(text, VerticalTab)
  }

  lemma {:induction false} LineWidthAppend(f: Font, prev: char, line: seq<char>, ch: char)
    ensures LineWidth(f, prev, line + [ch]) ==
      LineWidth(f, prev, line) + f.kerning(LastOr(prev, line), ch) + CharAdvance(f, ch)
    decreases |line|
  {
    if line != [] {
      assert (line + [ch])[1..] == line[1..] + [ch];
      LineWidthAppend(f, line[0], line[1..], ch);
      if line[1..] != [] {
        assert LastOr(line[0], line[1..]) == LastOr(prev, line);
      }
    }
  }

  /** Within a line the pen advances by the line's width: kerning for every
      character (control characters included), the space advance for a space,
      four of them for a tab, nothing for a vertical tab and the glyph's
      advance for anything else. */
  lemma {:induction false} HorizontalPosition(c: Canvas, p: Pen, line: seq<char>)
    requires c.Valid()
    requires '\n' !in line
    ensures RunFrom(c, p, line).x == p.x + LineWidth(c.font, p.prev, line)
    ensures RunFrom(c, p, line).prev == LastOr(p.prev, line)
  {
    if line != [] {
      var init := line[..|line| - 1];
      assert init + [line[|line| - 1]] == line;
      assert '\n' !in init by {
        forall k | 0 <= k < |init| ensures init[k] != '\n' {
          assert init[k] == line[k];
        }
      }
      HorizontalPosition(c, p, init);
      LineWidthAppend(c.font, p.prev, init, line[|line| - 1]);
    }
  }

  /** A newline returns the pen to the left margin: whatever came before it,
      the pen's x after `before + "\n" + line` is the width of `line` written
      after a newline. */
  lemma NewlineResetsX(c: Canvas, p: Pen, before: seq<char>, line: seq<char>)
    requires c.Valid()
    requires '\n' !in line
    ensures RunFrom(c, p, before + ['\n'] + line).x == LineWidth(c.font, '\n', line)
  {
    RunFromAppend(c, p, before + ['\n'], line);
    RunFromAppend(c, p, before, ['\n']);
    assert RunFrom(c, RunFrom(c, p, before), ['\n']) == Step(c, RunFrom(c, p, before), '\n') by {
      assert ['\n'][..0] == [];
    }
    HorizontalPosition(c, RunFrom(c, p, before + ['\n']), line);
  }

  /** The running box bounds every emitted vertex, and each of its sides is
      either still the sentinel or attained by some vertex. */
  predicate Tracks(p: Pen)
  {
    (forall k :: 0 <= k < |p.vertices| ==>
       p.box.xmin <= p.vertices[k].x <= p.box.xmax && p.box.ymin <= p.vertices[k].y <= p.box.ymax) &&
    (p.box.xmin == 256.0 || exists k :: 0 <= k < |p.vertices| && p.vertices[k].x == p.box.xmin) &&
    (p.box.ymin == 256.0 || exists k :: 0 <= k < |p.vertices| && p.vertices[k].y == p.box.ymin) &&
    (p.box.xmax == -256.0 || exists k :: 0 <= k < |p.vertices| && p.vertices[k].x == p.box.xmax) &&
    (p.box.ymax == -256.0 || exists k :: 0 <= k < |p.vertices| && p.vertices[k].y == p.box.ymax)
  }

  lemma StepTracks(c: Canvas, p: Pen, ch: char)
    requires c.Valid()
    requires Tracks(p) && p.box.xmin <= 256.0 && p.box.ymin <= 256.0 && p.box.xmax >= -256.0 && p.box.ymax >= -256.0
    ensures var q := Step(c, p, ch);
      Tracks(q) && q.box.xmin <= 256.0 && q.box.ymin <= 256.0 && q.box.xmax >= -256.0 && q.box.ymax >= -256.0
  {
    var q := Step(c, p, ch);
    if IsControl(ch) {
      assert q.vertices == p.vertices && q.box == p.box;
    } else {
      var x := p.x + c.font.kerning(p.prev, ch);
      var g := c.font.glyph(ch);
      var x1 := (x + g.left) / c.width;
      var y1 := (p.y + g.top) / c.height;
      var x2 := (x + g.left + g.width) / c.width;
      var y2 := (p.y + g.top + g.height) / c.height;
      QuadTracks(p, q, x1, y1, x2, y2);
    }
  }

  /** Appending a quad with corners (x1, y1) and (x2, y2) and widening the box
      to them keeps the box tight. */
  lemma QuadTracks(p: Pen, q: Pen, x1: real, y1: real, x2: real, y2: real)
    requires Tracks(p) && p.box.xmin <= 256.0 && p.box.ymin <= 256.0 && p.box.xmax >= -256.0 && p.box.ymax >= -256.0
    requires var n := |p.vertices|;
      |q.vertices| == n + 4 && q.vertices[..n] == p.vertices &&
      q.vertices[n].x == x1 && q.vertices[n].y == y1 && q.vertices[n + 1].x == x2 && q.vertices[n + 1].y == y1 &&
      q.vertices[n + 2].x == x2 && q.vertices[n + 2].y == y2 && q.vertices[n + 3].x == x1 && q.vertices[n + 3].y == y2
    requires q.box == Box(Min(p.box.xmin, Min(x1, x2)), Min(p.box.ymin, Min(y1, y2)),
                          Max(p.box.xmax, Max(x1, x2)), Max(p.box.ymax, Max(y1, y2)))
    ensures Tracks(q) && q.box.xmin <= 256.0 && q.box.ymin <= 256.0 && q.box.xmax >= -256.0 && q.box.ymax >= -256.0
  {
    var n := |p.vertices|;
    assert forall k :: 0 <= k < n ==> q.vertices[k] == q.vertices[..n][k] == p.vertices[k];
    // a side that moved is attained by one of the four new corners
    if q.box.xmin != p.box.xmin {
      assert q.vertices[n].x == q.box.xmin || q.vertices[n + 1].x == q.box.xmin;
    }
    if q.box.ymin != p.box.ymin {
      assert q.vertices[n].y == q.box.ymin || q.vertices[n + 2].y == q.box.ymin;
    }
    if q.box.xmax != p.box.xmax {
      assert q.vertices[n].x == q.box.xmax || q.vertices[n + 1].x == q.box.xmax;
    }
    if q.box.ymax != p.box.ymax {
      assert q.vertices[n].y == q.box.ymax || q.vertices[n + 2].y == q.box.ymax;
    }
  }

  /** The loop keeps the running box tight: it bounds every vertex and each
      side is the sentinel or attained. */
  lemma {:induction false} RunTracks(c: Canvas, text: seq<char>)
    requires c.Valid()
    ensures var p := Run(c, text);
      Tracks(p) && p.box.xmin <= 256.0 && p.box.ymin <= 256.0 && p.box.xmax >= -256.0 && p.box.ymax >= -256.0
  {
    if text != [] {
      RunTracks(c, text[..|text| - 1]);
      StepTracks(c, Run(c, text[..|text| - 1]), text[|text| - 1]);
    }
  }

  /** Box `b` bounds every vertex of `vs` and each of its sides is attained. */
  predicate Tight(vs: seq<Vertex>, b: Box)
  {
    (forall k :: 0 <= k < |vs| ==> b.xmin <= vs[k].x <= b.xmax && b.ymin <= vs[k].y <= b.ymax) &&
    (exists k :: 0 <= k < |vs| && vs[k].x == b.xmin) &&
    (exists k :: 0 <= k < |vs| && vs[k].y == b.ymin) &&
    (exists k :: 0 <= k < |vs| && vs[k].x == b.xmax) &&
    (exists k :: 0 <= k < |vs| && vs[k].y == b.ymax)
  }

  /** Once at least one glyph is drawn and every corner lies within the
      sentinels, the running box is the exact bounding box of the vertices. */
  lemma Extremes(c: Canvas, text: seq<char>)
    requires c.Valid()
    requires Printable(text) > 0
    requires forall v :: v in Run(c, text).vertices ==> -256.0 <= v.x <= 256.0 && -256.0 <= v.y <= 256.0
    ensures Tight(Run(c, text).vertices, Run(c, text).box)
  {
    var vs := Run(c, text).vertices;
    VertexCount(c, Start, text);
    RunTracks(c, text);
    var aX := Attained(vs, Run(c, text).box.xmin, true, true);
    var bX := Attained(vs, Run(c, text).box.xmax, true, false);
    var aY := Attained(vs, Run(c, text).box.ymin, false, true);
    var bY := Attained(vs, Run(c, text).box.ymax, false, false);
  }

  /** An index of `vs` where the box side `side` (x or y, min or max) is
      attained, given that it bounds every vertex and is attained unless it is
      the sentinel, and that every vertex is within the sentinels. */
  lemma Attained(vs: seq<Vertex>, side: real, horizontal: bool, isMin: bool) returns (a: nat)
    requires |vs| > 0
    requires forall v :: v in vs ==> -256.0 <= v.x <= 256.0 && -256.0 <= v.y <= 256.0
    requires forall k :: 0 <= k < |vs| ==>
      if horizontal then (if isMin then side <= vs[k].x else vs[k].x <= side)
      else (if isMin then side <= vs[k].y else vs[k].y <= side)
    requires side == (if isMin then 256.0 else -256.0) ||
      exists k :: 0 <= k < |vs| && (if horizontal then vs[k].x else vs[k].y) == side
    ensures a < |vs| && (if horizontal then vs[a].x else vs[a].y) == side
  {
    if side == (if isMin then 256.0 else -256.0) {
      // the sentinel bounds every vertex, and every vertex lies within it
      assert vs[0] in vs;
      a := 0;
    } else {
      a :| 0 <= a < |vs| && (if horizontal then vs[a].x else vs[a].y) == side;
    }
  }

  /** An increasing affine map `m(v) = (v - centre) * scale + o` sends the
      extremes of a set of values to the extremes of its image, and the
      midpoint `centre = lo + (hi - lo) / 2` to `o`. */
  lemma AffineCentre(lo: real, hi: real, v: real, scale: real, o: real, mlo: real, mv: real, mhi: real)
    requires lo <= v <= hi && scale > 0.0
    requires var centre := lo + (hi - lo) / 2.0;
      mlo == (lo - centre) * scale + o && mv == (v - centre) * scale + o && mhi == (hi - centre) * scale + o
    ensures mlo <= mv <= mhi && (mlo + mhi) / 2.0 == o
  {
    var centre := lo + (hi - lo) / 2.0;
    ScaleOrder(lo - centre, v - centre, scale);
    ScaleOrder(v - centre, hi - centre, scale);
    ScaleNegate(lo - centre, hi - centre, scale);
  }

  lemma ScaleOrder(a: real, b: real, s: real)
    requires a <= b && s > 0.0
    ensures a * s <= b * s
  {
    assert b * s - a * s == (b - a) * s;
  }

  lemma ScaleNegate(a: real, b: real, s: real)
    requires a == -b
    ensures a * s + b * s == 0.0
  {
    assert a * s == -(b * s);
  }

  /** Vertices `i` and `j` of `out` are its extremes along x (or along y when
      `horizontal` is false) and their midpoint is `o`. */
  predicate Spans(out: seq<Vertex>, i: int, j: int, o: real, horizontal: bool)
  {
    0 <= i < |out| && 0 <= j < |out| &&
    if horizontal then
      (forall k :: 0 <= k < |out| ==> out[i].x <= out[k].x <= out[j].x) && (out[i].x + out[j].x) / 2.0 == o
    else
      (forall k :: 0 <= k < |out| ==> out[i].y <= out[k].y <= out[j].y) && (out[i].y + out[j].y) / 2.0 == o
  }

  /** The post-pass with a positive scale maps a tight box's extremes to the
      extremes of its output, whose midpoints are the offsets. */
  lemma PostPassCentred(vs: seq<Vertex>, b: Box, scale: real, ox: real, oy: real)
    requires scale > 0.0
    requires Tight(vs, b)
    ensures exists i, j :: Spans(PostPass(vs, b, scale, ox, oy), i, j, ox, true)
    ensures exists i, j :: Spans(PostPass(vs, b, scale, ox, oy), i, j, oy, false)
  {
    var out := PostPass(vs, b, scale, ox, oy);
    var aX :| 0 <= aX < |vs| && vs[aX].x == b.xmin;
    var bX :| 0 <= bX < |vs| && vs[bX].x == b.xmax;
    var aY :| 0 <= aY < |vs| && vs[aY].y == b.ymin;
    var bY :| 0 <= bY < |vs| && vs[bY].y == b.ymax;
    forall k | 0 <= k < |out|
      ensures out[aX].x <= out[k].x <= out[bX].x && (out[aX].x + out[bX].x) / 2.0 == ox
      ensures out[aY].y <= out[k].y <= out[bY].y && (out[aY].y + out[bY].y) / 2.0 == oy
    {
      PlaceX(vs[aX], vs[k], vs[bX], b, scale, ox, oy);
      PlaceY(vs[aY], vs[k], vs[bY], b, scale, ox, oy);
    }
    assert (out[aX].x + out[bX].x) / 2.0 == ox && (out[aY].y + out[bY].y) / 2.0 == oy by {
      PlaceX(vs[aX], vs[aX], vs[bX], b, scale, ox, oy);
      PlaceY(vs[aY], vs[aY], vs[bY], b, scale, ox, oy);
    }
    assert Spans(out, aX, bX, ox, true);
    assert Spans(out, aY, bY, oy, false);
  }

  lemma PlaceX(lo: Vertex, v: Vertex, hi: Vertex, b: Box, scale: real, ox: real, oy: real)
    requires scale > 0.0 && lo.x == b.xmin && hi.x == b.xmax && lo.x <= v.x <= hi.x
    ensures Place(lo, b, scale, ox, oy).x <= Place(v, b, scale, ox, oy).x <= Place(hi, b, scale, ox, oy).x
    ensures (Place(lo, b, scale, ox, oy).x + Place(hi, b, scale, ox, oy).x) / 2.0 == ox
  {
    AffineCentre(b.xmin, b.xmax, v.x, scale, ox,
      Place(lo, b, scale, ox, oy).x, Place(v, b, scale, ox, oy).x, Place(hi, b, scale, ox, oy).x);
  }

  lemma PlaceY(lo: Vertex, v: Vertex, hi: Vertex, b: Box, scale: real, ox: real, oy: real)
    requires scale > 0.0 && lo.y == b.ymin && hi.y == b.ymax && lo.y <= v.y <= hi.y
    ensures Place(lo, b, scale, ox, oy).y <= Place(v, b, scale, ox, oy).y <= Place(hi, b, scale, ox, oy).y
    ensures (Place(lo, b, scale, ox, oy).y + Place(hi, b, scale, ox, oy).y) / 2.0 == oy
  {
    AffineCentre(b.ymin, b.ymax, v.y, scale, oy,
      Place(lo, b, scale, ox, oy).y, Place(v, b, scale, ox, oy).y, Place(hi, b, scale, ox, oy).y);
  }

  /** With a positive scale, at least one glyph, and every corner within the
      sentinels, the emitted vertices' bounding box is centred on the
      normalised offset: its leftmost and rightmost x average to
      `offsetX / width`, and its topmost and bottommost y to `offsetY / height`. */
  lemma Centred(c: Canvas, text: seq<char>, offsetX: real, offsetY: real, scale: real)
    requires c.Valid()
    requires scale > 0.0
    requires Printable(text) > 0
    requires forall v :: v in Run(c, text).vertices ==> -256.0 <= v.x <= 256.0 && -256.0 <= v.y <= 256.0
    ensures exists i, j :: Spans(Layout(c, text, offsetX, offsetY, scale), i, j, c.NormX(offsetX), true)
    ensures exists i, j :: Spans(Layout(c, text, offsetX, offsetY, scale), i, j, c.NormY(offsetY), false)
  {
    assert text != [];
    var p := Run(c, text);
    Extremes(c, text);
    var out := PostPass(p.vertices, p.box, scale, c.NormX(offsetX), c.NormY(offsetY));
    assert Layout(c, text, offsetX, offsetY, scale) == out;
    PostPassCentred(p.vertices, p.box, scale, c.NormX(offsetX), c.NormY(offsetY));
    var i, j :| Spans(out, i, j, c.NormX(offsetX), true);
    var i', j' :| Spans(out, i', j', c.NormY(offsetY), false);
  }
}
