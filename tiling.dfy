/** Mirror tiling of an image over the viewport: the image is scaled to fit,
    drawn centred, and repeated outwards on both axes with every other tile
    flipped so that neighbouring edges match. A draw is recorded as the
    arguments of one `render_texture` call. Coordinates are pixels, modelled
    as reals (the C++ code uses `float`). */
module Tiling {

  import opened Reals

  /** One `render_texture(l, t, r, b, flip_h, flip_v)` call. */
  datatype Quad = Quad(left: real, top: real, right: real, bottom: real, flipH: bool, flipV: bool)

  /** Geometry of one tiling: the horizontal eye offset, the viewport's
      half-extents (`_width / 2` and `_height / 2`, integer divisions) and the
      scaled tile size. */
  datatype Frame = Frame(offset: real, halfWidth: real, halfHeight: real, tileWidth: real, tileHeight: real)
  {
    predicate Valid()
    {
      halfWidth >= 0.0 && halfHeight >= 0.0 && tileWidth > 0.0 && tileHeight > 0.0
    }

    /** Corners of the centre tile. */
    function X1(): real { offset + halfWidth - tileWidth / 2.0 }
    function X2(): real { offset + halfWidth + tileWidth / 2.0 }
    function Y1(): real { halfHeight - tileHeight / 2.0 }
    function Y2(): real { halfHeight + tileHeight / 2.0 }
  }

  /** The frame `render_image` computes: scale the image to fit the viewport,
      halve the scale when VR is enabled, centre it at the viewport's middle. */
  function ImageFrame(width: nat, height: nat, vr: bool, offset: real, imageWidth: nat, imageHeight: nat): (f: Frame)
    requires width > 0 && height > 0 && imageWidth > 0 && imageHeight > 0
    ensures f.Valid()
  {
    var x := imageWidth as real;
    var y := imageHeight as real;
    var fit := Min(height as real / y, width as real / x);
    var scale := if vr then fit * 0.5 else fit;
    ScaleFits(x, width as real, fit, scale, vr, x * scale);
    ScaleFits(y, height as real, fit, scale, vr, y * scale);
    Frame(offset, (width / 2) as real, (height / 2) as real, x * scale, y * scale)
  }

  /** The scaled image fits the viewport (each eye's half of it in VR) and
      is centred on the viewport's middle, `_width / 2` and `_height / 2` in
      integer division. */
  lemma ImageFits(width: nat, height: nat, vr: bool, offset: real, imageWidth: nat, imageHeight: nat)
    requires width > 0 && height > 0 && imageWidth > 0 && imageHeight > 0
    ensures var f := ImageFrame(width, height, vr, offset, imageWidth, imageHeight);
      f.halfWidth == (width / 2) as real && f.halfHeight == (height / 2) as real &&
      f.tileWidth <= (if vr then width as real / 2.0 else width as real) &&
      f.tileHeight <= (if vr then height as real / 2.0 else height as real)
  {
    var x := imageWidth as real;
    var y := imageHeight as real;
    var fit := Min(height as real / y, width as real / x);
    var scale := if vr then fit * 0.5 else fit;
    var f := ImageFrame(width, height, vr, offset, imageWidth, imageHeight);
    ScaleFits(x, width as real, fit, scale, vr, f.tileWidth);
    ScaleFits(y, height as real, fit, scale, vr, f.tileHeight);
  }

  /** Outside VR the scaled image fills the viewport along one axis. */
  lemma ImageFills(width: nat, height: nat, offset: real, imageWidth: nat, imageHeight: nat)
    requires width > 0 && height > 0 && imageWidth > 0 && imageHeight > 0
    ensures var f := ImageFrame(width, height, false, offset, imageWidth, imageHeight);
      f.tileWidth == width as real || f.tileHeight == height as real
  {
    var x := imageWidth as real;
    var y := imageHeight as real;
    var fit := Min(height as real / y, width as real / x);
    var f := ImageFrame(width, height, false, offset, imageWidth, imageHeight);
    ScaleFits(x, width as real, fit, fit, false, f.tileWidth);
    ScaleFits(y, height as real, fit, fit, false, f.tileHeight);
  }

  /** Scaling keeps the image's aspect ratio. */
  lemma ImageAspect(width: nat, height: nat, vr: bool, offset: real, imageWidth: nat, imageHeight: nat)
    requires width > 0 && height > 0 && imageWidth > 0 && imageHeight > 0
    ensures var f := ImageFrame(width, height, vr, offset, imageWidth, imageHeight);
      f.tileWidth * imageHeight as real == f.tileHeight * imageWidth as real
  {
    var x := imageWidth as real;
    var y := imageHeight as real;
    var fit := Min(height as real / y, width as real / x);
    var scale := if vr then fit * 0.5 else fit;
    var f := ImageFrame(width, height, vr, offset, imageWidth, imageHeight);
    SameScale(f.tileWidth, f.tileHeight, x, y, scale);
  }

  /** Scaling both sides by the same factor keeps the aspect ratio. */
  lemma SameScale(tw: real, th: real, x: real, y: real, s: real)
    requires tw == x * s && th == y * s
    ensures tw * y == th * x
  {
  }

  /** A side of length `a` scaled by at most `bound / a` (halved in VR) is
      positive and at most `bound` (half of it in VR), and equals `bound` when
      the scale is exactly `bound / a`. */
  lemma ScaleFits(a: real, bound: real, fit: real, scale: real, vr: bool, tile: real)
    requires a > 0.0 && bound > 0.0 && 0.0 < fit <= bound / a
    requires scale == (if vr then fit * 0.5 else fit) && tile == a * scale
    ensures 0.0 < tile <= (if vr then bound / 2.0 else bound)
    ensures !vr && fit == bound / a ==> tile == bound
  {
    assert a * (bound / a) == bound;
    assert a * fit <= a * (bound / a);
    assert a * (fit * 0.5) == (a * fit) * 0.5;
  }

  /** The tile at distance (i, j) from the centre, on the side given by
      `right` and `down`; it is flipped on an axis whose index is odd. */
  function Mirror(f: Frame, i: nat, j: nat, right: bool, down: bool): Quad
  {
    var dx := i as real * f.tileWidth;
    var dy := j as real * f.tileHeight;
    if right && down then Quad(f.X1() + dx, f.Y1() + dy, f.X2() + dx, f.Y2() + dy, i % 2 != 0, j % 2 != 0)
    else if right then Quad(f.X1() + dx, f.Y1() - dy, f.X2() + dx, f.Y2() - dy, i % 2 != 0, j % 2 != 0)
    else if down then Quad(f.X1() - dx, f.Y1() + dy, f.X2() - dx, f.Y2() + dy, i % 2 != 0, j % 2 != 0)
    else Quad(f.X1() - dx, f.Y1() - dy, f.X2() - dx, f.Y2() - dy, i % 2 != 0, j % 2 != 0)
  }

  /** The draws of one visit to (i, j), in the order the source issues them. */
  function CellQuads(f: Frame, i: nat, j: nat): seq<Quad>
  {
    [Mirror(f, i, j, false, false)]
    + (if i != 0 then [Mirror(f, i, j, true, false)] else [])
    + (if j != 0 then [Mirror(f, i, j, false, true)] else [])
    + (if i != 0 && j != 0 then [Mirror(f, i, j, true, true)] else [])
  }

  /** The draws of the inner loop for column `i`, rows 0 to n - 1. */
  function Column(f: Frame, i: nat, n: nat): seq<Quad>
  {
    if n == 0 then [] else Column(f, i, n - 1) + CellQuads(f, i, n - 1)
  }

  /** The draws of columns 0 to m - 1, each with rows 0 to n - 1. */
  function Grid(f: Frame, m: nat, n: nat): seq<Quad>
  {
    if m == 0 then [] else Grid(f, m - 1, n) + Column(f, m - 1, n)
  }

  /** How many indices the loop `for (i = 0; half - i * size + size / 2 >= 0; ++i)`
      visits. */
  function TileCount(half: real, size: real): nat
    requires half >= 0.0 && size > 0.0
  {
    ((half / size) + 0.5).Floor + 1
  }

  /** All draws of one `render_image` call. */
  function MirrorTiling(f: Frame): seq<Quad>
    requires f.Valid()
  {
    Grid(f, TileCount(f.halfWidth, f.tileWidth), TileCount(f.halfHeight, f.tileHeight))
  }

  // ---------------------------------------------------------------------------
  // Properties.

  /** The loop guard holds exactly for the indices below `TileCount`, so both
      loops stop for a positive tile size. */
  lemma LoopGuard(half: real, size: real, i: nat)
    requires half >= 0.0 && size > 0.0
    ensures (half - i as real * size + size / 2.0 >= 0.0) <==> i < TileCount(half, size)
    ensures TileCount(half, size) >= 1
  {
    var q := half / size + 0.5;
    assert q * size == half + size / 2.0;
    if half - i as real * size + size / 2.0 >= 0.0 {
      assert i as real * size <= q * size;
      assert i as real <= q;
    } else {
      assert i as real * size > q * size;
      assert i as real > q;
    }
  }

  /** One visit to (i, j) draws 1 quad at the centre, 2 when exactly one index
      is nonzero and 4 otherwise; every quad is one tile in size and flipped on
      an axis exactly when that axis's index is odd. */
  lemma CellShape(f: Frame, i: nat, j: nat)
    ensures |CellQuads(f, i, j)| == if i == 0 && j == 0 then 1 else if i == 0 || j == 0 then 2 else 4
    ensures forall q :: q in CellQuads(f, i, j) ==>
      q.flipH == (i % 2 == 1) && q.flipV == (j % 2 == 1) &&
      q.right - q.left == f.X2() - f.X1() && q.bottom - q.top == f.Y2() - f.Y1()
  {
  }

  lemma {:induction false} ColumnSize(f: Frame, i: nat, n: nat)
    requires n >= 1
    ensures |Column(f, i, n)| == if i == 0 then 2 * n - 1 else 4 * n - 2
  {
    if n > 1 {
      ColumnSize(f, i, n - 1);
    }
  }

  /** An m-by-n visit draws (2m - 1)(2n - 1) quads: the centre tile and its
      mirrored copies on every side. */
  lemma {:induction false} GridSize(f: Frame, m: nat, n: nat)
    requires m >= 1 && n >= 1
    ensures |Grid(f, m, n)| == (2 * m - 1) * (2 * n - 1)
  {
    ColumnSize(f, m - 1, n);
    if m > 1 {
      GridSize(f, m - 1, n);
      AddTwoRows(2 * (m - 1) - 1, 2 * n - 1);
    }
  }

  lemma AddTwoRows(a: int, k: int)
    ensures (a + 2) * k == a * k + 2 * k
  {
  }

  /** Quad `q` is the tile i columns and j rows away from the centre tile,
      flipped on the axes whose index is odd. */
  predicate PlacedAt(f: Frame, q: Quad, i: nat, j: nat)
  {
    (q.left == f.X1() - i as real * f.tileWidth || q.left == f.X1() + i as real * f.tileWidth) &&
    q.right - q.left == f.tileWidth &&
    (q.top == f.Y1() - j as real * f.tileHeight || q.top == f.Y1() + j as real * f.tileHeight) &&
    q.bottom - q.top == f.tileHeight &&
    q.flipH == (i % 2 == 1) && q.flipV == (j % 2 == 1)
  }

  lemma CellPlaced(f: Frame, i: nat, j: nat)
    ensures forall q :: q in CellQuads(f, i, j) ==> PlacedAt(f, q, i, j)
  {
  }

  lemma {:induction false} ColumnPlaced(f: Frame, i: nat, n: nat)
    ensures forall q :: q in Column(f, i, n) ==> exists j: nat :: j < n && PlacedAt(f, q, i, j)
  {
    if n > 0 {
      ColumnPlaced(f, i, n - 1);
      CellPlaced(f, i, n - 1);
    }
  }

  /** Every quad of an m-by-n visit lies a whole number of tiles from the centre
      tile, inside the visited range, and is flipped exactly on the axes whose
      distance is odd, so that neighbouring tiles mirror each other. */
  lemma {:induction false} GridPlaced(f: Frame, m: nat, n: nat)
    ensures forall q :: q in Grid(f, m, n) ==>
      exists i: nat, j: nat :: i < m && j < n && PlacedAt(f, q, i, j)
  {
    if m > 0 {
      GridPlaced(f, m - 1, n);
      ColumnPlaced(f, m - 1, n);
    }
  }

  /** Where the loops stop: the last visited column starts left of the eye
      offset and ends right of `offset + 2 * (_width / 2)`, and the column
      before it does not start left of the offset. The same holds for rows
      against 0 and `2 * (_height / 2)`. The guard ignores the eye offset and
      uses the integer half, so this is not coverage of the whole viewport. */
  lemma Coverage(f: Frame)
    requires f.Valid()
    ensures var m := TileCount(f.halfWidth, f.tileWidth);
      m >= 1 &&
      f.X1() - (m - 1) as real * f.tileWidth < f.offset &&
      f.X2() + (m - 1) as real * f.tileWidth > f.offset + 2.0 * f.halfWidth &&
      (m >= 2 ==> f.X1() - (m - 2) as real * f.tileWidth >= f.offset)
    ensures var n := TileCount(f.halfHeight, f.tileHeight);
      n >= 1 &&
      f.Y1() - (n - 1) as real * f.tileHeight < 0.0 &&
      f.Y2() + (n - 1) as real * f.tileHeight > 2.0 * f.halfHeight &&
      (n >= 2 ==> f.Y1() - (n - 2) as real * f.tileHeight >= 0.0)
  {
    var m := TileCount(f.halfWidth, f.tileWidth);
    LoopGuard(f.halfWidth, f.tileWidth, m);
    var n := TileCount(f.halfHeight, f.tileHeight);
    LoopGuard(f.halfHeight, f.tileHeight, n);
    if m >= 2 {
      LoopGuard(f.halfWidth, f.tileWidth, m - 1);
    }
    if n >= 2 {
      LoopGuard(f.halfHeight, f.tileHeight, n - 1);
    }
  }

  /** A square image in a square viewport fills it at scale 1. With an even
      side the guard `>= 0` still admits index 1 (its tiles lie just outside the
      viewport), so 3 x 3 quads are drawn; with an odd side only the centre
      tile is, centred on the integer half, so its right and bottom edges stop
      half a pixel short of the viewport's. */
  lemma ExactFit(side: nat)
    requires side > 0
    ensures var f := ImageFrame(side, side, false, 0.0, side, side);
      f.tileWidth == side as real && f.tileHeight == side as real &&
      |MirrorTiling(f)| == (if side % 2 == 0 then 9 else 1) &&
      (side % 2 == 1 ==> f.X2() == side as real - 0.5 && f.Y2() == side as real - 0.5)
  {
    var f := ImageFrame(side, side, false, 0.0, side, side);
    ImageFills(side, side, 0.0, side, side);
    ImageFits(side, side, false, 0.0, side, side);
    var m := TileCount(f.halfWidth, f.tileWidth);
    if side % 2 == 0 {
      LoopGuard(f.halfWidth, f.tileWidth, 1);
      LoopGuard(f.halfWidth, f.tileWidth, 2);
      assert m == 2;
    } else {
      LoopGuard(f.halfWidth, f.tileWidth, 1);
      assert m == 1;
    }
    GridSize(f, m, m);
  }
}
