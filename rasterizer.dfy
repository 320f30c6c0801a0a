/** The scan converter of src/render/rasterizer.c: near-plane clipping,
    splitting a triangle into flat-topped and flat-bottomed trapezoids, and
    drawing them scanline by scanline into the depth, stencil and g-buffer.

    The effect on the buffers is specified pixel by pixel: every drawing
    step is a function from the old Pixel at an offset to the new one, and
    the methods are proved to leave each offset in the state that function
    gives. */
module Rasterizer {
  import opened Geom
  import opened Render

  // ---------------------------------------------------------------------------
  // The per-pixel effect of one fragment

  /** What draw_scanline writes into the g-buffer cell for the vertex v: the
      screen position, and the normal, texture coordinate and colour
      multiplied by w = 1 / rhw, which undoes the 1/w pre-scaling of
      vertex_init_rhw (StoreFragmentRecovers). The other fields of the cell
      are left as they were. */
  function StoreFragment(cell: GBuff, v: Vertex): (c: GBuff)
    ensures c.vPosH == v.vPosH && c.vPos == cell.vPos
    ensures c.diffuseColor == cell.diffuseColor && c.specularColorAdder == cell.specularColorAdder
    ensures c.color == cell.color
  {
    var w := Recip(v.rhw);
    cell.(vPosH := v.vPosH,
          normal := V4Mul(v.normal, w),
          tc := Vec2(v.tc.x * w, v.tc.y * w),
          vColor := Color(v.vColor.r * w, v.vColor.g * w, v.vColor.b * w))
  }

  /** The depth test of draw_scanline: a fragment nearer than the stored
      depth replaces it, sets the hit flag and stores its attributes; any
      other fragment changes nothing. */
  function DepthTest(p: Pixel, v: Vertex): (q: Pixel)
    ensures q.depth <= p.depth && q.depth <= v.vPosH.z
    ensures q.depth == p.depth || q.depth == v.vPosH.z
    ensures q != p ==> q.stencil == 1 && q.cell == StoreFragment(p.cell, v)
  {
    if v.vPosH.z < p.depth then Pixel(v.vPosH.z, 1, StoreFragment(p.cell, v)) else p
  }

  /** The depth test keeps the nearer of the two depths, marks the pixel hit
      exactly when the fragment is nearer, and never touches the fields
      the shading pass fills in. The same fragment a second time changes
      nothing. */
  lemma DepthTestKeepsNearest(p: Pixel, v: Vertex)
    ensures var q := DepthTest(p, v);
      && q.depth <= p.depth && q.depth <= v.vPosH.z
      && (q.depth == p.depth || q.depth == v.vPosH.z)
      && (v.vPosH.z < p.depth ==> q.stencil == 1 && q.cell.vPosH == v.vPosH)
      && (v.vPosH.z >= p.depth ==> q == p)
      && q.cell.vPos == p.cell.vPos && q.cell.diffuseColor == p.cell.diffuseColor
      && q.cell.specularColorAdder == p.cell.specularColorAdder && q.cell.color == p.cell.color
    ensures DepthTest(DepthTest(p, v), v) == DepthTest(p, v)
  {
  }

  /** Two fragments of different depths leave the same pixel whichever is
      drawn first: the nearer one wins either way. */
  lemma DepthTestCommutes(p: Pixel, u: Vertex, v: Vertex)
    requires u.vPosH.z != v.vPosH.z
    ensures DepthTest(DepthTest(p, u), v) == DepthTest(DepthTest(p, v), u)
  {
  }

  /** On equal depths the strict `z < *depth` keeps the fragment drawn
      first, so the drawing order decides the stored attributes. */
  lemma DepthTestTieKeepsFirst(p: Pixel, u: Vertex, v: Vertex)
    requires u.vPosH.z == v.vPosH.z < p.depth
    ensures DepthTest(DepthTest(p, u), v) == DepthTest(p, u)
    ensures DepthTest(DepthTest(p, v), u) == DepthTest(p, v)
  {
  }

  /** A fragment of a vertex that went through vertex_init_rhw stores the
      vertex's own normal direction, texture coordinate and colour: the
      perspective-correct recovery. */
  lemma StoreFragmentRecovers(cell: GBuff, v: Vertex)
    requires v.vPosH.w != 0.0
    ensures var c := StoreFragment(cell, VertexInitRhw(v));
      c.normal == Direction(v.normal) && c.tc == v.tc && c.vColor == v.vColor
  {
    InitRhwRecovers(v);
  }

  // ---------------------------------------------------------------------------
  // wg_scanline_t and draw_scanline

  /** wg_scanline_t: the vertex at the first pixel, the per-pixel step, and
      the starting column x, the row y and the width w in pixels. */
  datatype Scanline = Scanline(v: Vertex, step: Vertex, x: int, y: int, w: int)

  /** map_coord_to_offset: the row-major offset of (x, y). Inside the frame
      the offset gives the column and the row back. */
  function MapCoordToOffset(width: int, x: int, y: int): (o: int)
    ensures 0 <= x < width && 0 <= y ==> o / width == y && o % width == x
  {
    if 0 <= x < width && 0 <= y then
      DivModUnique(width * y + x, width, y, x);
      width * y + x
    else
      width * y + x
  }

  /** The scanline draws offset k: k is in row s.y, its column is inside the
      frame and among the w columns starting at s.x. */
  predicate Covers(width: int, s: Scanline, k: int)
  {
    var x := k - width * s.y;
    0 <= x < width && s.x <= x < s.x + s.w
  }

  /** The effect of draw_scanline on the pixel at offset k: a covered pixel
      gets the depth test of the vertex stepped (k's column - s.x) times. */
  function ScanlineAt(width: int, s: Scanline, k: int, p: Pixel): Pixel
  {
    if Covers(width, s, k) then DepthTest(p, Advance(s.v, s.step, k - width * s.y - s.x)) else p
  }

  /** One more column: only the pixel of column s.x + i can change. */
  lemma ScanlineGrow(width: int, s: Scanline, i: nat, k: int, p: Pixel)
    ensures ScanlineAt(width, s.(w := i + 1), k, p) ==
      if k == width * s.y + s.x + i && 0 <= s.x + i < width
      then DepthTest(p, Advance(s.v, s.step, i))
      else ScanlineAt(width, s.(w := i), k, p)
  {
  }

  /** The first i columns are the whole scanline once i reaches the width,
      or once column s.x + i is past the right edge. */
  lemma ScanlineDone(width: int, s: Scanline, i: nat, k: int, p: Pixel)
    requires i == s.w || (i == 0 && s.w < 0) || (width <= s.x + i && i <= s.w)
    ensures ScanlineAt(width, s.(w := i), k, p) == ScanlineAt(width, s, k, p)
  {
  }

  /** A scanline changes nothing outside its own row. */
  lemma ScanlineStaysInRow(width: int, s: Scanline, k: int, p: Pixel)
    requires width > 0 && k >= 0 && k / width != s.y
    ensures ScanlineAt(width, s, k, p) == p
  {
    if Covers(width, s, k) {
      var x := k - width * s.y;
      DivModUnique(k, width, s.y, x);
      assert false;
    }
  }

  /** A scanline only lowers depths. */
  lemma ScanlineNearer(width: int, s: Scanline, k: int, p: Pixel)
    ensures ScanlineAt(width, s, k, p).depth <= p.depth
  {
    if Covers(width, s, k) {
      DepthTestKeepsNearest(p, Advance(s.v, s.step, k - width * s.y - s.x));
    }
  }

  /** draw_scanline: walk the w columns from s.x, stepping the vertex once
      per column; columns left of the frame are skipped, the walk stops at
      the right edge, and every column inside goes through the depth
      test. */
  method DrawScanline(ctx: RenderContext, s: Scanline)
    requires ctx.Valid() && 0 <= s.y < ctx.height
    modifies ctx.zBuffer, ctx.stencil, ctx.gBuffer
    ensures forall k :: 0 <= k < ctx.width * ctx.height ==>
      ctx.PixelAt(k) == ScanlineAt(ctx.width, s, k, old(ctx.PixelAt(k)))
  {
    var width := ctx.width;
    var x, v := s.x, s.v;
    var i := 0;
    while i < s.w
      invariant 0 <= i && (i <= s.w || i == 0)
      invariant x == s.x + i && v == Advance(s.v, s.step, i)
      invariant forall k :: 0 <= k < ctx.width * ctx.height ==>
        ctx.PixelAt(k) == ScanlineAt(width, s.(w := i), k, old(ctx.PixelAt(k)))
    {
      if x < 0 {
        forall k | 0 <= k < ctx.width * ctx.height
          ensures ScanlineAt(width, s.(w := i + 1), k, old(ctx.PixelAt(k))) == ScanlineAt(width, s.(w := i), k, old(ctx.PixelAt(k)))
        {
          ScanlineGrow(width, s, i, k, old(ctx.PixelAt(k)));
        }
        v := VertexAdd(v, s.step);
        x := x + 1;
        i := i + 1;
        continue;
      }
      if x >= width {
        break;
      }
      GridOffset(width, ctx.height, x, s.y);
      var o := MapCoordToOffset(width, x, s.y);
      DrawFragment(ctx, o, v);
      forall k | 0 <= k < ctx.width * ctx.height
        ensures ctx.PixelAt(k) == ScanlineAt(width, s.(w := i + 1), k, old(ctx.PixelAt(k)))
      {
        ScanlineGrow(width, s, i, k, old(ctx.PixelAt(k)));
      }
      v := VertexAdd(v, s.step);
      x := x + 1;
      i := i + 1;
    }
    forall k | 0 <= k < ctx.width * ctx.height
      ensures ctx.PixelAt(k) == ScanlineAt(width, s, k, old(ctx.PixelAt(k)))
    {
      ScanlineDone(width, s, i, k, old(ctx.PixelAt(k)));
    }
  }

  /** The body of draw_scanline for one column: the depth test at offset o. */
  method DrawFragment(ctx: RenderContext, o: int, v: Vertex)
    requires ctx.Valid() && 0 <= o < ctx.width * ctx.height
    modifies ctx.zBuffer, ctx.stencil, ctx.gBuffer
    ensures ctx.PixelAt(o) == DepthTest(old(ctx.PixelAt(o)), v)
    ensures forall k :: 0 <= k < ctx.width * ctx.height && k != o ==> ctx.PixelAt(k) == old(ctx.PixelAt(k))
  {
    var z := v.vPosH.z;
    if z < ctx.zBuffer[o] {
      ctx.zBuffer[o] := z;
      ctx.stencil[o] := 1;
      ctx.gBuffer[o] := StoreFragment(ctx.gBuffer[o], v);
    }
  }

  // ---------------------------------------------------------------------------
  // wg_trapezoid_t and draw_trapezoid

  /** wg_trapezoid_t: the left edge v1 -> v2 and the right edge v3 -> v4, both
      running down from the line y = top to the line y = bottom. */
  datatype Trapezoid = Trapezoid(v1: Vertex, v2: Vertex, v3: Vertex, v4: Vertex, top: real, bottom: real)

  /** The edge ratio of the first row: (v1.y - top) / (bottom - top). On a
      trapezoid of zero height the C division is 0/0, but then no row is
      drawn, so the model takes 0. */
  function YStart(t: Trapezoid): real
  {
    if t.bottom == t.top then 0.0 else (t.v1.vPosH.y - t.top) / (t.bottom - t.top)
  }

  /** The edge ratio added per row: 1 / (bottom - top). */
  function YStep(t: Trapezoid): real
  {
    Recip(t.bottom - t.top)
  }

  /** The edge ratio draw_trapezoid has reached at row y, counting one step
      per row from row ceil(top). */
  function YRatio(t: Trapezoid, y: int): real
  {
    YStart(t) + (y - Ceil(t.top)) as real * YStep(t)
  }

  /** The first vertex of the scanline from l to r: l interpolated towards r
      up to the pixel column x = ceil(l.x). When l and r have the same x the C
      ratio is a division by zero, but the scanline then has width 0 and draws
      nothing, so the model takes l. */
  function ScanlineStart(l: Vertex, r: Vertex, x: int): Vertex
  {
    if r.vPosH.x == l.vPosH.x then l
    else VertexInterp(l, r, (x as real - l.vPosH.x) / (r.vPosH.x - l.vPosH.x))
  }

  /** The scanline draw_trapezoid builds for row y: the two edges interpolated
      at the row's ratio, the step between them, and the columns from
      ceil(l.x) up to, not including, ceil(r.x). */
  function RowScanline(t: Trapezoid, y: int): Scanline
  {
    var yr := YRatio(t, y);
    var l := VertexInterp(t.v1, t.v2, yr);
    var r := VertexInterp(t.v3, t.v4, yr);
    var x := Ceil(l.vPosH.x);
    Scanline(ScanlineStart(l, r, x), VertexStep(l, r), x, y, Ceil(r.vPosH.x) - x)
  }

  /** Interpolating at (c - a) / (b - a) lands on c. */
  lemma LerpHits(a: real, b: real, c: real, t: real)
    requires a != b && t == (c - a) / (b - a)
    ensures Lerp(a, b, t) == c
  {
    assert t * (b - a) == c - a;
  }

  /** The scanline of a row starts exactly on its first pixel column, spans
      the columns between the two edges, and with vertex_step's increment
      reaches the right edge. */
  lemma RowScanlineSpan(t: Trapezoid, y: int)
    ensures var s := RowScanline(t, y);
      var yr := YRatio(t, y);
      var l := VertexInterp(t.v1, t.v2, yr);
      var r := VertexInterp(t.v3, t.v4, yr);
      && s.y == y && s.x == Ceil(l.vPosH.x) && s.x + s.w == Ceil(r.vPosH.x)
      && (r.vPosH.x != l.vPosH.x ==> s.v.vPosH.x == s.x as real)
      && (r.vPosH.x == l.vPosH.x ==> s.w == 0)
      && (StepSpan(l, r) != 0.0 ==> SameAttributes(VertexAdd(l, VertexScale(s.step, StepSpan(l, r))), r))
  {
    var yr := YRatio(t, y);
    var l := VertexInterp(t.v1, t.v2, yr);
    var r := VertexInterp(t.v3, t.v4, yr);
    var x := Ceil(l.vPosH.x);
    if r.vPosH.x != l.vPosH.x {
      LerpHits(l.vPosH.x, r.vPosH.x, x as real, (x as real - l.vPosH.x) / (r.vPosH.x - l.vPosH.x));
    }
    if StepSpan(l, r) != 0.0 {
      StepReachesRight(l, r);
    }
  }

  /** draw_trapezoid draws row y: from row ceil(top) while y < bottom, and
      only rows inside the frame. */
  predicate RowDrawn(t: Trapezoid, height: int, y: int)
  {
    Ceil(t.top) <= y && (y as real) < t.bottom && 0 <= y < height
  }

  /** The effect of draw_trapezoid on the pixel at offset k: the scanline of
      k's row, if that row is drawn. Every pixel belongs to one row, so it
      sees at most one scanline. */
  function TrapezoidAt(width: int, height: int, t: Trapezoid, k: int, p: Pixel): Pixel
  {
    if width == 0 then p
    else
      var y := k / width;
      if RowDrawn(t, height, y) then ScanlineAt(width, RowScanline(t, y), k, p) else p
  }

  /** The same with only the rows above yEnd drawn. */
  function TrapezoidRows(width: int, height: int, t: Trapezoid, yEnd: int, k: int, p: Pixel): Pixel
  {
    if width == 0 then p
    else
      var y := k / width;
      if RowDrawn(t, height, y) && y < yEnd then ScanlineAt(width, RowScanline(t, y), k, p) else p
  }

  /** Drawing row y on top of the rows above it gives the rows above y + 1. */
  lemma TrapezoidNextRow(width: int, height: int, t: Trapezoid, y: int, k: int, p: Pixel)
    requires 0 <= k < width * height && 0 <= y < height
    requires RowDrawn(t, height, y)
    ensures ScanlineAt(width, RowScanline(t, y), k, TrapezoidRows(width, height, t, y, k, p))
      == TrapezoidRows(width, height, t, y + 1, k, p)
  {
    assert width != 0;
    if k / width != y {
      ScanlineStaysInRow(width, RowScanline(t, y), k, TrapezoidRows(width, height, t, y, k, p));
    }
  }

  /** A row that is not drawn adds nothing. */
  lemma TrapezoidSkipRow(width: int, height: int, t: Trapezoid, y: int, k: int, p: Pixel)
    requires !RowDrawn(t, height, y)
    ensures TrapezoidRows(width, height, t, y, k, p) == TrapezoidRows(width, height, t, y + 1, k, p)
  {
  }

  /** Once y is past the bottom or the frame, the rows above y are all of
      them. */
  lemma TrapezoidRowsDone(width: int, height: int, t: Trapezoid, y: int, k: int, p: Pixel)
    requires t.bottom <= y as real || height <= y
    ensures TrapezoidRows(width, height, t, y, k, p) == TrapezoidAt(width, height, t, k, p)
  {
  }

  /** A trapezoid only lowers depths and touches nothing outside its rows. */
  lemma TrapezoidNearer(width: int, height: int, t: Trapezoid, k: int, p: Pixel)
    ensures TrapezoidAt(width, height, t, k, p).depth <= p.depth
    ensures width > 0 && !RowDrawn(t, height, k / width) ==> TrapezoidAt(width, height, t, k, p) == p
  {
    if width != 0 {
      ScanlineNearer(width, RowScanline(t, k / width), k, p);
    }
  }

  /** draw_trapezoid: the edge ratio starts at YStart and grows by YStep per
      row; rows above the frame are skipped, the walk stops at the bottom
      of the frame, and every row inside is one scanline. */
  method DrawTrapezoid(ctx: RenderContext, t: Trapezoid)
    requires ctx.Valid()
    modifies ctx.zBuffer, ctx.stencil, ctx.gBuffer
    ensures forall k :: 0 <= k < ctx.width * ctx.height ==>
      ctx.PixelAt(k) == TrapezoidAt(ctx.width, ctx.height, t, k, old(ctx.PixelAt(k)))
  {
    var width, height := ctx.width, ctx.height;
    var ystep := Recip(t.bottom - t.top);
    var yratio := if t.bottom == t.top then 0.0 else (t.v1.vPosH.y - t.top) / (t.bottom - t.top);
    var y := Ceil(t.top);
    while (y as real) < t.bottom
      invariant Ceil(t.top) <= y
      invariant yratio == YRatio(t, y)
      invariant forall k :: 0 <= k < width * height ==>
        ctx.PixelAt(k) == TrapezoidRows(width, height, t, y, k, old(ctx.PixelAt(k)))
      decreases height - y
    {
      if y >= 0 {
        if y >= height {
          break;
        }
        var l := VertexInterp(t.v1, t.v2, yratio);
        var r := VertexInterp(t.v3, t.v4, yratio);
        var step := VertexStep(l, r);
        var x, w := Ceil(l.vPosH.x), Ceil(r.vPosH.x) - Ceil(l.vPosH.x);
        var scanline := Scanline(ScanlineStart(l, r, x), step, x, y, w);
        assert scanline == RowScanline(t, y);
        DrawScanline(ctx, scanline);
        forall k | 0 <= k < width * height
          ensures ctx.PixelAt(k) == TrapezoidRows(width, height, t, y + 1, k, old(ctx.PixelAt(k)))
        {
          TrapezoidNextRow(width, height, t, y, k, old(ctx.PixelAt(k)));
        }
      } else {
        forall k | 0 <= k < width * height
          ensures ctx.PixelAt(k) == TrapezoidRows(width, height, t, y + 1, k, old(ctx.PixelAt(k)))
        {
          TrapezoidSkipRow(width, height, t, y, k, old(ctx.PixelAt(k)));
        }
      }
      OneMoreStep(YStart(t), ystep, (y - Ceil(t.top)) as real, (y + 1 - Ceil(t.top)) as real);
      y, yratio := y + 1, yratio + ystep;
    }
    forall k | 0 <= k < width * height
      ensures ctx.PixelAt(k) == TrapezoidAt(width, height, t, k, old(ctx.PixelAt(k)))
    {
      TrapezoidRowsDone(width, height, t, y, k, old(ctx.PixelAt(k)));
    }
  }

  // ---------------------------------------------------------------------------
  // split_trapezoid and draw_triangle

  /** The three compare-and-swap steps at the head of split_trapezoid, which
      order the vertices by screen y. */
  function Sort3(v1: Vertex, v2: Vertex, v3: Vertex): (r: (Vertex, Vertex, Vertex))
    ensures r.0.vPosH.y <= r.1.vPosH.y <= r.2.vPosH.y
    ensures r in {(v1, v2, v3), (v1, v3, v2), (v2, v1, v3), (v2, v3, v1), (v3, v1, v2), (v3, v2, v1)}
  {
    var (a, b) := Swap(v1, v2);
    var (a', c) := Swap(a, v3);
    var (b', c') := Swap(b, c);
    (a', b', c')
  }

  /** One compare-and-swap: `if (a->y > b->y) swap(a, b)`. */
  function Swap(a: Vertex, b: Vertex): (r: (Vertex, Vertex))
    ensures r.0.vPosH.y <= r.1.vPosH.y
    ensures r == (a, b) || r == (b, a)
  {
    if a.vPosH.y > b.vPosH.y then (b, a) else (a, b)
  }

  /** The outcome of split_trapezoid: one trapezoid (return value 1) or two
      (return value 2), the first above the second. */
  datatype Split = One(t: Trapezoid) | Two(t1: Trapezoid, t2: Trapezoid)

  /** split_trapezoid: with the vertices a, b, c ordered by y, a flat top
      (a.y == b.y) or a flat bottom (b.y == c.y) gives one trapezoid, with
      the two vertices on the flat side ordered by x; otherwise the triangle
      is cut along y = b.y at the point d of the long edge a -> c, and the
      upper and lower trapezoids share the cut with b and d ordered by x. */
  function SplitTrapezoid(v1: Vertex, v2: Vertex, v3: Vertex): (sp: Split)
    ensures var (a, b, c) := Sort3(v1, v2, v3);
      sp.One? <==> a.vPosH.y == b.vPosH.y || b.vPosH.y == c.vPosH.y
    ensures sp.Two? ==> sp.t1.v2 == sp.t2.v1 && sp.t1.v4 == sp.t2.v3 && sp.t1.bottom == sp.t2.top
  {
    var (a, b, c) := Sort3(v1, v2, v3);
    if a.vPosH.y == b.vPosH.y then
      var (l, r) := if a.vPosH.x > b.vPosH.x then (b, a) else (a, b);
      One(Trapezoid(l, c, r, c, l.vPosH.y, c.vPosH.y))
    else if b.vPosH.y == c.vPosH.y then
      var (l, r) := if b.vPosH.x > c.vPosH.x then (c, b) else (b, c);
      One(Trapezoid(a, l, a, r, a.vPosH.y, l.vPosH.y))
    else
      var ratio := (b.vPosH.y - a.vPosH.y) / (c.vPosH.y - a.vPosH.y);
      var d := VertexInterp(a, c, ratio);
      var (l, r) := if b.vPosH.x > d.vPosH.x then (d, b) else (b, d);
      Two(Trapezoid(a, l, a, r, a.vPosH.y, l.vPosH.y), Trapezoid(l, c, r, c, l.vPosH.y, c.vPosH.y))
  }

  /** Each edge of a trapezoid runs from the top line to the bottom line, the
      left edge is left of the right edge at both lines, and the trapezoid
      has no negative height. */
  predicate WellFormed(t: Trapezoid)
  {
    && t.v1.vPosH.y == t.top && t.v3.vPosH.y == t.top
    && t.v2.vPosH.y == t.bottom && t.v4.vPosH.y == t.bottom
    && t.v1.vPosH.x <= t.v3.vPosH.x && t.v2.vPosH.x <= t.v4.vPosH.x
    && t.top <= t.bottom
  }

  /** split_trapezoid returns one trapezoid exactly when the triangle has a
      horizontal edge (two vertices at one y). Each trapezoid is well formed;
      the pieces of a split meet at the middle vertex's y, share the cut
      vertices, and together span the triangle from its lowest to its
      highest y. */
  lemma SplitShape(v1: Vertex, v2: Vertex, v3: Vertex)
    ensures var (a, b, c) := Sort3(v1, v2, v3);
      match SplitTrapezoid(v1, v2, v3)
      case One(t) =>
        && (a.vPosH.y == b.vPosH.y || b.vPosH.y == c.vPosH.y)
        && WellFormed(t) && t.top == a.vPosH.y && t.bottom == c.vPosH.y
      case Two(t1, t2) =>
        && a.vPosH.y < b.vPosH.y < c.vPosH.y
        && WellFormed(t1) && WellFormed(t2)
        && t1.top == a.vPosH.y && t1.bottom == b.vPosH.y
        && t2.top == b.vPosH.y && t2.bottom == c.vPosH.y
        && t1.v2 == t2.v1 && t1.v4 == t2.v3
  {
    var (a, b, c) := Sort3(v1, v2, v3);
    if a.vPosH.y != b.vPosH.y && b.vPosH.y != c.vPosH.y {
      var ratio := (b.vPosH.y - a.vPosH.y) / (c.vPosH.y - a.vPosH.y);
      LerpHits(a.vPosH.y, c.vPosH.y, b.vPosH.y, ratio);
      assert VertexInterp(a, c, ratio).vPosH.y == b.vPosH.y;
    }
  }

  /** The two trapezoids of a split never draw the same row: the upper one
      stops above y = b.y and the lower one starts at ceil(b.y). */
  lemma SplitRowsDisjoint(v1: Vertex, v2: Vertex, v3: Vertex, height: int, y: int)
    requires SplitTrapezoid(v1, v2, v3).Two?
    ensures var sp := SplitTrapezoid(v1, v2, v3);
      !(RowDrawn(sp.t1, height, y) && RowDrawn(sp.t2, height, y))
  {
    SplitShape(v1, v2, v3);
  }

  /** The effect of draw_triangle on the pixel at offset k: the first
      trapezoid, then the second when there is one. */
  function TriangleAt(width: int, height: int, v1: Vertex, v2: Vertex, v3: Vertex, k: int, p: Pixel): Pixel
  {
    match SplitTrapezoid(v1, v2, v3)
    case One(t) => TrapezoidAt(width, height, t, k, p)
    case Two(t1, t2) => TrapezoidAt(width, height, t2, k, TrapezoidAt(width, height, t1, k, p))
  }

  /** A triangle only lowers depths, and each pixel is drawn by at most one
      of its trapezoids. */
  lemma TriangleNearer(width: int, height: int, v1: Vertex, v2: Vertex, v3: Vertex, k: int, p: Pixel)
    ensures TriangleAt(width, height, v1, v2, v3, k, p).depth <= p.depth
    ensures match SplitTrapezoid(v1, v2, v3)
      case One(t) => true
      case Two(t1, t2) =>
        TriangleAt(width, height, v1, v2, v3, k, p) == TrapezoidAt(width, height, t1, k, p)
        || TriangleAt(width, height, v1, v2, v3, k, p) == TrapezoidAt(width, height, t2, k, p)
  {
    match SplitTrapezoid(v1, v2, v3)
    case One(t) =>
      TrapezoidNearer(width, height, t, k, p);
    case Two(t1, t2) =>
      var q := TrapezoidAt(width, height, t1, k, p);
      TrapezoidNearer(width, height, t1, k, p);
      TrapezoidNearer(width, height, t2, k, q);
      if width > 0 {
        SplitRowsDisjoint(v1, v2, v3, height, k / width);
        TrapezoidNearer(width, height, t2, k, p);
      }
  }

  /** draw_triangle: split, draw the first trapezoid, and the second when
      split_trapezoid returned 2. */
  method DrawTriangle(ctx: RenderContext, v1: Vertex, v2: Vertex, v3: Vertex)
    requires ctx.Valid()
    modifies ctx.zBuffer, ctx.stencil, ctx.gBuffer
    ensures forall k :: 0 <= k < ctx.width * ctx.height ==>
      ctx.PixelAt(k) == TriangleAt(ctx.width, ctx.height, v1, v2, v3, k, old(ctx.PixelAt(k)))
  {
    match SplitTrapezoid(v1, v2, v3)
    case One(t) =>
      DrawTrapezoid(ctx, t);
    case Two(t1, t2) =>
      DrawTrapezoid(ctx, t1);
      DrawTrapezoid(ctx, t2);
  }

  // ---------------------------------------------------------------------------
  // check_cvv and line_border_inter

  /** check_cvv: one bit per face of the canonical view volume the point is
      outside of: 1 near (z < 0), 2 far (z > w), 4 left (x < -w), 8 right
      (x > w), 16 bottom (y < -w), 32 top (y > w). */
  function CheckCvv(p: Vec4): (r: bv8)
    ensures (r & 1 != 0) <==> p.z < 0.0
    ensures (r & 2 != 0) <==> p.z > p.w
    ensures (r & 4 != 0) <==> p.x < -p.w
    ensures (r & 8 != 0) <==> p.x > p.w
    ensures (r & 16 != 0) <==> p.y < -p.w
    ensures (r & 32 != 0) <==> p.y > p.w
  {
    var w := p.w;
    var r0: bv8 := 0;
    var r1 := if p.z < 0.0 then r0 | 1 else r0;
    var r2 := if p.z > w then r1 | 2 else r1;
    var r3 := if p.x < -w then r2 | 4 else r2;
    var r4 := if p.x > w then r3 | 8 else r3;
    var r5 := if p.y < -w then r4 | 16 else r4;
    if p.y > w then r5 | 32 else r5
  }

  /** A point is inside the view volume, 0 <= z <= w and -w <= x, y <= w,
      exactly when check_cvv reports no face. */
  lemma CheckCvvInside(p: Vec4)
    ensures CheckCvv(p) == 0 <==>
      0.0 <= p.z <= p.w && -p.w <= p.x <= p.w && -p.w <= p.y <= p.w
    ensures CheckCvv(p) < 64
  {
    var r := CheckCvv(p);
    if r != 0 {
      assert r & 1 != 0 || r & 2 != 0 || r & 4 != 0 || r & 8 != 0 || r & 16 != 0 || r & 32 != 0 by {
        assert r == r & 63;
      }
    }
    assert r == r & 63;
  }

  /** The result of line_border_inter: no crossing (return value 0), a
      crossing at a ratio (return value 1), or the fatal Assert, which fires
      when the ratio is 0/0. */
  datatype Inter = Miss | Hit(ratio: real) | Fault

  /** The signed distance x·v.x + y·v.y + z·v.z + w·v.w of v from the plane
      (x, y, z, w). */
  function PlaneDist(plane: Vec4, v: Vec4): real
  {
    plane.x * v.x + plane.y * v.y + plane.z * v.z + plane.w * v.w
  }

  function Abs(x: real): real
  {
    if x < 0.0 then -x else x
  }

  /** The crossing ratio d1 / (d1 - d2) of distances of opposite sign (or
      one of them zero) lies in [0, 1] and is where the distance vanishes. */
  lemma CrossingRatio(d1: real, d2: real, t: real)
    requires d1 * d2 <= 0.0 && d1 != d2 && t == d1 / (d1 - d2)
    ensures 0.0 <= t <= 1.0 && Lerp(d1, d2, t) == 0.0
  {
    assert t * (d1 - d2) == d1;
    if d1 > 0.0 {
      assert d2 <= 0.0;
    } else if d1 < 0.0 {
      assert d2 >= 0.0;
    }
    assert Lerp(d1, d2, t) == d1 - t * (d1 - d2);
  }

  /** line_border_inter as the repository writes it: the segment a -> b
      misses the plane when both distances have the same strict sign;
      otherwise it crosses at |d1 / (d1 - d2)|, which is in [0, 1], and the
      Assert fails only when both end points lie on the plane. */
  function LineBorderInter(a: Vec4, b: Vec4, plane: Vec4): (r: Inter)
    ensures r.Miss? <==> PlaneDist(plane, a) * PlaneDist(plane, b) > 0.0
    ensures r.Fault? <==> PlaneDist(plane, a) == 0.0 && PlaneDist(plane, b) == 0.0
    ensures r.Hit? ==> 0.0 <= r.ratio <= 1.0 && Lerp(PlaneDist(plane, a), PlaneDist(plane, b), r.ratio) == 0.0
  {
    var d1, d2 := PlaneDist(plane, a), PlaneDist(plane, b);
    if d1 * d2 > 0.0 then Miss
    else if d1 == d2 then Fault
    else
      var t := d1 / (d1 - d2);
      CrossingRatio(d1, d2, t);
      Hit(Abs(t))
  }

  /** line_border_inter with the strict test the clipper needs: a segment
      crosses the plane only when its end points are strictly on opposite
      sides. An end point on the plane is kept as a vertex by the clipper
      and is not a crossing, so no ratio 0/0 can arise. */
  function LineBorderCross(a: Vec4, b: Vec4, plane: Vec4): (r: Inter)
    ensures !r.Fault?
    ensures r.Hit? <==> PlaneDist(plane, a) * PlaneDist(plane, b) < 0.0
    ensures r.Hit? ==> 0.0 < r.ratio < 1.0 && Lerp(PlaneDist(plane, a), PlaneDist(plane, b), r.ratio) == 0.0
    ensures r.Hit? ==> LineBorderInter(a, b, plane) == r
  {
    var d1, d2 := PlaneDist(plane, a), PlaneDist(plane, b);
    if d1 * d2 >= 0.0 then Miss
    else
      var t := d1 / (d1 - d2);
      CrossingRatio(d1, d2, t);
      Hit(Abs(t))
  }

  // ---------------------------------------------------------------------------
  // Near-plane clipping in cull_and_draw_triangle

  /** The plane z = 0 the clipper cuts against. */
  const NearPlane := Vec4(0.0, 0.0, 1.0, 0.0)

  /** A vertex is kept when check_cvv's near bit is clear, that is z >= 0. */
  predicate Kept(v: Vertex)
  {
    CheckCvv(v.vPosH) & 1 == 0
  }

  function KeepPiece(v: Vertex): seq<Vertex>
  {
    if Kept(v) then [v] else []
  }

  /** The crossing point of the edge a -> b, if e reports one. It is
      interpolated with the corrected VertexInterp (see VertexInterpAsWritten
      for the texture coordinate the repository stores instead). */
  function CrossPiece(a: Vertex, b: Vertex, e: Inter): seq<Vertex>
  {
    if e.Hit? then [VertexInterp(a, b, e.ratio)] else []
  }

  /** The clipper's outcome: the polygon's vertices, or the fatal Assert. */
  datatype Clip = Polygon(vs: seq<Vertex>) | ClipFault

  /** The vertices cull_and_draw_triangle writes into v with the
      repository's crossing test, in order: walk v1 -> v2 -> v3 -> v1,
      emitting each kept vertex and the crossing of each edge that
      line_border_inter reports. The crossing points themselves are
      interpolated as in CrossPiece. */
  function ClipAsWrittenVertices(v1: Vertex, v2: Vertex, v3: Vertex): seq<Vertex>
  {
    KeepPiece(v1) + CrossPiece(v1, v2, LineBorderInter(v1.vPosH, v2.vPosH, NearPlane))
    + KeepPiece(v2) + CrossPiece(v2, v3, LineBorderInter(v2.vPosH, v3.vPosH, NearPlane))
    + KeepPiece(v3) + CrossPiece(v3, v1, LineBorderInter(v3.vPosH, v1.vPosH, NearPlane))
  }

  /** An edge of the triangle lies in the plane z = 0. */
  predicate EdgeInPlane(v1: Vertex, v2: Vertex, v3: Vertex)
  {
    || (v1.vPosH.z == 0.0 && v2.vPosH.z == 0.0)
    || (v2.vPosH.z == 0.0 && v3.vPosH.z == 0.0)
    || (v3.vPosH.z == 0.0 && v1.vPosH.z == 0.0)
  }

  /** The clipper of cull_and_draw_triangle as the repository writes it. It
      stops at one of two Asserts. The ratio Assert of line_border_inter
      fails exactly when an edge lies in the plane z = 0, where the ratio is
      0/0. The Assert that at most four vertices were written fails when the
      walk emitted more. Otherwise the outcome is the polygon written. */
  function ClipAsWritten(v1: Vertex, v2: Vertex, v3: Vertex): (c: Clip)
    ensures c.ClipFault? <==> EdgeInPlane(v1, v2, v3) || |ClipAsWrittenVertices(v1, v2, v3)| > 4
    ensures c.Polygon? ==> c.vs == ClipAsWrittenVertices(v1, v2, v3) && |c.vs| <= 4
  {
    assert PlaneDist(NearPlane, v1.vPosH) == v1.vPosH.z;
    assert PlaneDist(NearPlane, v2.vPosH) == v2.vPosH.z;
    assert PlaneDist(NearPlane, v3.vPosH) == v3.vPosH.z;
    var e1 := LineBorderInter(v1.vPosH, v2.vPosH, NearPlane);
    var e2 := LineBorderInter(v2.vPosH, v3.vPosH, NearPlane);
    var e3 := LineBorderInter(v3.vPosH, v1.vPosH, NearPlane);
    var vs := ClipAsWrittenVertices(v1, v2, v3);
    if e1.Fault? || e2.Fault? || e3.Fault? || |vs| > 4 then ClipFault
    else Polygon(vs)
  }

  /** A vertex exactly on the near plane is emitted three times: as a kept
      vertex and as the crossing of both of its edges (ratio 0 on one, ratio
      1 on the other). With the two other vertices in front this is five
      vertices, one more than the array v[4] holds, and the Assert that at
      most four were written fails on a triangle with no edge in the plane. */
  lemma ClipAsWrittenOverflows()
    ensures var on := ZeroVertex.(vPosH := Vec4(0.0, 0.0, 0.0, 1.0));
      var front := ZeroVertex.(vPosH := Vec4(0.0, 0.0, 1.0, 1.0));
      && !EdgeInPlane(on, front, front)
      && |ClipAsWrittenVertices(on, front, front)| == 5
      && ClipAsWritten(on, front, front) == ClipFault
  {
    var on := ZeroVertex.(vPosH := Vec4(0.0, 0.0, 0.0, 1.0));
    var front := ZeroVertex.(vPosH := Vec4(0.0, 0.0, 1.0, 1.0));
    assert Kept(on) && Kept(front);
    assert LineBorderInter(on.vPosH, front.vPosH, NearPlane) == Hit(0.0);
    assert LineBorderInter(front.vPosH, front.vPosH, NearPlane) == Miss;
    assert LineBorderInter(front.vPosH, on.vPosH, NearPlane) == Hit(1.0);
  }

  /** With no edge in the plane, the repository's walk writes at most five
      vertices: four when no vertex is on the plane (ClipAgreesOffPlane),
      and five at most when one is, so v[4] overflows by one entry at most. */
  lemma ClipAsWrittenAtMostFive(v1: Vertex, v2: Vertex, v3: Vertex)
    requires !EdgeInPlane(v1, v2, v3)
    ensures |ClipAsWrittenVertices(v1, v2, v3)| <= 5
  {
    var z1, z2, z3 := v1.vPosH.z, v2.vPosH.z, v3.vPosH.z;
    if z1 != 0.0 && z2 != 0.0 && z3 != 0.0 {
      ClipAgreesOffPlane(v1, v2, v3);
    } else if z1 == 0.0 {
      EdgeOffPlane(v2, v3);
    } else if z2 == 0.0 {
      EdgeOffPlane(v3, v1);
    } else {
      EdgeOffPlane(v1, v2);
    }
  }

  /** The near-plane polygon with strict crossings (LineBorderCross): the
      kept vertices in order, with the crossing point inserted on every edge
      whose end points lie strictly on opposite sides. */
  function ClipNear(v1: Vertex, v2: Vertex, v3: Vertex): (r: seq<Vertex>)
    ensures |r| <= 4
  {
    CrossFront(v1, v2);
    CrossFront(v2, v3);
    CrossFront(v3, v1);
    KeepPiece(v1) + CrossPiece(v1, v2, LineBorderCross(v1.vPosH, v2.vPosH, NearPlane))
    + KeepPiece(v2) + CrossPiece(v2, v3, LineBorderCross(v2.vPosH, v3.vPosH, NearPlane))
    + KeepPiece(v3) + CrossPiece(v3, v1, LineBorderCross(v3.vPosH, v1.vPosH, NearPlane))
  }

  /** The corrected clipper never builds more than four vertices, all of them
      on or in front of the near plane. A triangle wholly in front comes back
      unchanged and one wholly behind vanishes. */
  lemma ClipNearShape(v1: Vertex, v2: Vertex, v3: Vertex)
    ensures |ClipNear(v1, v2, v3)| <= 4
    ensures forall v :: v in ClipNear(v1, v2, v3) ==> v.vPosH.z >= 0.0
    ensures Kept(v1) && Kept(v2) && Kept(v3) ==> ClipNear(v1, v2, v3) == [v1, v2, v3]
    ensures !Kept(v1) && !Kept(v2) && !Kept(v3) ==> ClipNear(v1, v2, v3) == []
  {
    CrossFront(v1, v2);
    CrossFront(v2, v3);
    CrossFront(v3, v1);
  }

  /** The crossing of an edge, when there is one, is on the near plane and
      the edge has one end point behind it and one strictly in front. */
  lemma CrossFront(a: Vertex, b: Vertex)
    ensures var e := LineBorderCross(a.vPosH, b.vPosH, NearPlane);
      |CrossPiece(a, b, e)| <= 1
      && (e.Hit? ==> VertexInterp(a, b, e.ratio).vPosH.z == 0.0)
      && (e.Hit? ==> (a.vPosH.z < 0.0 < b.vPosH.z) || (b.vPosH.z < 0.0 < a.vPosH.z))
  {
    var e := LineBorderCross(a.vPosH, b.vPosH, NearPlane);
    assert PlaneDist(NearPlane, a.vPosH) == a.vPosH.z && PlaneDist(NearPlane, b.vPosH) == b.vPosH.z;
    if e.Hit? {
      ProductNegative(a.vPosH.z, b.vPosH.z);
    }
  }

  /** Off the near plane the strict test changes nothing: when no vertex
      has z == 0 the clipper with the repository's crossing test and the one
      with the corrected test build the same polygon, and a triangle
      straddling the plane becomes a triangle or a quad. */
  lemma ClipAgreesOffPlane(v1: Vertex, v2: Vertex, v3: Vertex)
    requires v1.vPosH.z != 0.0 && v2.vPosH.z != 0.0 && v3.vPosH.z != 0.0
    ensures ClipAsWritten(v1, v2, v3) == Polygon(ClipNear(v1, v2, v3))
    ensures !(Kept(v1) && Kept(v2) && Kept(v3)) && (Kept(v1) || Kept(v2) || Kept(v3)) ==>
      3 <= |ClipNear(v1, v2, v3)| <= 4
  {
    EdgeOffPlane(v1, v2);
    EdgeOffPlane(v2, v3);
    EdgeOffPlane(v3, v1);
    ClipNearShape(v1, v2, v3);
  }

  /** An edge whose end points are both off the plane: the two tests agree,
      and the edge is crossed exactly when one end is kept and the other
      is not. */
  lemma EdgeOffPlane(a: Vertex, b: Vertex)
    requires a.vPosH.z != 0.0 && b.vPosH.z != 0.0
    ensures LineBorderInter(a.vPosH, b.vPosH, NearPlane) == LineBorderCross(a.vPosH, b.vPosH, NearPlane)
    ensures |CrossPiece(a, b, LineBorderCross(a.vPosH, b.vPosH, NearPlane))| == (if Kept(a) != Kept(b) then 1 else 0)
  {
    var x, y := a.vPosH.z, b.vPosH.z;
    assert PlaneDist(NearPlane, a.vPosH) == x && PlaneDist(NearPlane, b.vPosH) == y;
    SignOfProduct(x, y);
  }

  /** The sign of a product of two non-zero reals. */
  lemma SignOfProduct(x: real, y: real)
    requires x != 0.0 && y != 0.0
    ensures x * y < 0.0 <==> (x < 0.0) != (y < 0.0)
    ensures x * y != 0.0
  {
    if x < 0.0 && y < 0.0 {
      assert (-x) * (-y) > 0.0;
    } else if x < 0.0 {
      assert (-x) * y > 0.0;
    } else if y < 0.0 {
      assert x * (-y) > 0.0;
    } else {
      assert x * y > 0.0;
    }
  }

  lemma ProductNegative(x: real, y: real)
    requires x * y < 0.0
    ensures (x < 0.0 < y) || (y < 0.0 < x)
  {
  }

  // ---------------------------------------------------------------------------
  // project_vertex, project_vertexes

  /** What project_vertex makes of v: the clip-space position from the
      combined projection matrix tp applied to the model position, and the
      position and normal moved by the world-camera matrix t. */
  function Projected(tp: Mat44, t: Mat44, v: Vertex): (r: Vertex)
    ensures r.tc == v.tc && r.vColor == v.vColor && r.rhw == v.rhw
  {
    v.(vPosH := MatVec(tp, v.vPos), vPos := MatVec(t, v.vPos), normal := MatVec(t, v.normal))
  }

  /** With identity matrices projection only copies the position into vPosH. */
  lemma ProjectedIdentity(v: Vertex)
    ensures Projected(Identity(), Identity(), v) == v.(vPosH := v.vPos)
  {
    IdentityNeutral(Identity(), v.vPos);
    IdentityNeutral(Identity(), v.normal);
  }

  /** project_vertex: vPosH is computed from the position before the
      position itself is overwritten. */
  method ProjectVertex(ctx: RenderContext, v: Vertex) returns (r: Vertex)
    requires ctx.transform.transform != null && ctx.transform.transformP != null
    requires ctx.transform.transform.Length == 16 && ctx.transform.transformP.Length == 16
    ensures r == Projected(ctx.transform.transformP[..], ctx.transform.transform[..], v)
  {
    r := v;
    var posH := MatVecMul4(ctx.transform.transformP, r.vPos);
    r := r.(vPosH := posH);
    var pos := MatVecMul4(ctx.transform.transform, r.vPos);
    r := r.(vPos := pos);
    var normal := MatVecMul4(ctx.transform.transform, r.normal);
    r := r.(normal := normal);
  }

  /** project_vertexes: the first `size` vertices are projected in place. */
  method ProjectVertexes(ctx: RenderContext, v: array<Vertex>, size: nat)
    requires ctx.transform.transform != null && ctx.transform.transformP != null
    requires ctx.transform.transform.Length == 16 && ctx.transform.transformP.Length == 16
    requires size <= v.Length
    modifies v
    ensures forall i :: 0 <= i < size ==>
      v[i] == Projected(ctx.transform.transformP[..], ctx.transform.transform[..], old(v[i]))
    ensures forall i :: size <= i < v.Length ==> v[i] == old(v[i])
  {
    for i := 0 to size
      invariant forall j :: 0 <= j < i ==>
        v[j] == Projected(ctx.transform.transformP[..], ctx.transform.transform[..], old(v[j]))
      invariant forall j :: i <= j < v.Length ==> v[j] == old(v[j])
    {
      v[i] := ProjectVertex(ctx, v[i]);
    }
  }

  // ---------------------------------------------------------------------------
  // cull_and_draw_triangle

  /** transform_homogenous followed by vertex_init_rhw, as
      cull_and_draw_triangle applies them to every clipped vertex. */
  function ScreenVertex(sw: real, sh: real, v: Vertex): Vertex
  {
    VertexInitRhw(TransformHomogenous(sw, sh, v))
  }

  /** A fragment stored from a screen vertex gives back the clip-space
      vertex's texture coordinate, colour and normal direction, whatever
      the vertex's w (as long as it is not zero). */
  lemma ScreenFragmentRecovers(sw: real, sh: real, v: Vertex, cell: GBuff)
    requires v.vPosH.w != 0.0
    ensures var c := StoreFragment(cell, ScreenVertex(sw, sh, v));
      c.normal == Direction(v.normal) && c.tc == v.tc && c.vColor == v.vColor
  {
    var u := TransformHomogenous(sw, sh, v);
    assert u.vPosH.w == 1.0 / v.vPosH.w;
    StoreFragmentRecovers(cell, u);
  }

  function ScreenPolygon(sw: real, sh: real, vs: seq<Vertex>): (r: seq<Vertex>)
    ensures |r| == |vs| && forall i :: 0 <= i < |vs| ==> r[i] == ScreenVertex(sw, sh, vs[i])
  {
    seq(|vs|, i requires 0 <= i < |vs| => ScreenVertex(sw, sh, vs[i]))
  }

  /** The effect of drawing the clipped polygon on the pixel at offset k:
      nothing for fewer than three vertices, the triangle (0, 1, 2), and for
      a quad also the triangle (0, 2, 3). */
  function FanAt(width: int, height: int, vs: seq<Vertex>, k: int, p: Pixel): Pixel
  {
    if |vs| < 3 then p
    else
      var q := TriangleAt(width, height, vs[0], vs[1], vs[2], k, p);
      if |vs| == 4 then TriangleAt(width, height, vs[0], vs[2], vs[3], k, q) else q
  }

  /** Drawing a clipped triangle only lowers depths; a triangle wholly behind
      the near plane draws nothing. */
  lemma FanNearer(width: int, height: int, sw: real, sh: real, v1: Vertex, v2: Vertex, v3: Vertex, k: int, p: Pixel)
    ensures FanAt(width, height, ScreenPolygon(sw, sh, ClipNear(v1, v2, v3)), k, p).depth <= p.depth
    ensures !Kept(v1) && !Kept(v2) && !Kept(v3) ==>
      FanAt(width, height, ScreenPolygon(sw, sh, ClipNear(v1, v2, v3)), k, p) == p
  {
    ClipNearShape(v1, v2, v3);
    var vs := ScreenPolygon(sw, sh, ClipNear(v1, v2, v3));
    if |vs| >= 3 {
      TriangleNearer(width, height, vs[0], vs[1], vs[2], k, p);
      var q := TriangleAt(width, height, vs[0], vs[1], vs[2], k, p);
      if |vs| == 4 {
        TriangleNearer(width, height, vs[0], vs[2], vs[3], k, q);
      }
    }
  }

  /** cull_and_draw_triangle: clip against z = 0 into at most four vertices,
      move them to the screen, and draw the triangle or the two triangles of
      the quad. */
  method CullAndDrawTriangle(ctx: RenderContext, v1: Vertex, v2: Vertex, v3: Vertex)
    requires ctx.Valid()
    modifies ctx.zBuffer, ctx.stencil, ctx.gBuffer
    ensures forall k :: 0 <= k < ctx.width * ctx.height ==>
      ctx.PixelAt(k) == FanAt(ctx.width, ctx.height,
                              ScreenPolygon(ctx.transform.w, ctx.transform.h, ClipNear(v1, v2, v3)),
                              k, old(ctx.PixelAt(k)))
  {
    var v := new Vertex[4];
    var n := ClipAgainstNear(v, v1, v2, v3);
    var sw, sh := ctx.transform.w, ctx.transform.h;
    ToScreen(v, n, sw, sh);
    assert v[..n] == ScreenPolygon(sw, sh, ClipNear(v1, v2, v3));
    DrawPolygon(ctx, v, n);
  }

  /** The drawing tail of cull_and_draw_triangle: nothing for two vertices
      or fewer, the triangle (0, 1, 2) and, for four, also (0, 2, 3). */
  method DrawPolygon(ctx: RenderContext, v: array<Vertex>, n: nat)
    requires ctx.Valid() && n <= v.Length
    modifies ctx.zBuffer, ctx.stencil, ctx.gBuffer
    ensures forall k :: 0 <= k < ctx.width * ctx.height ==>
      ctx.PixelAt(k) == FanAt(ctx.width, ctx.height, v[..n], k, old(ctx.PixelAt(k)))
  {
    if n <= 2 {
      return;
    }
    var a, b, c := v[0], v[1], v[2];
    DrawTriangle(ctx, a, b, c);
    if n == 4 {
      var d := v[3];
      label One:
      DrawTriangle(ctx, a, c, d);
      forall k | 0 <= k < ctx.width * ctx.height
        ensures ctx.PixelAt(k) == FanAt(ctx.width, ctx.height, v[..n], k, old(ctx.PixelAt(k)))
      {
        var p0, p1 := old(ctx.PixelAt(k)), old@One(ctx.PixelAt(k));
        assert p1 == TriangleAt(ctx.width, ctx.height, a, b, c, k, p0);
        assert ctx.PixelAt(k) == TriangleAt(ctx.width, ctx.height, a, c, d, k, p1);
        FanOfFour(ctx.width, ctx.height, v[..n], k, p0);
      }
    }
  }

  lemma FanOfFour(width: int, height: int, vs: seq<Vertex>, k: int, p: Pixel)
    requires |vs| == 4
    ensures FanAt(width, height, vs, k, p) ==
      TriangleAt(width, height, vs[0], vs[2], vs[3], k, TriangleAt(width, height, vs[0], vs[1], vs[2], k, p))
  {
  }

  /** The clipping half of cull_and_draw_triangle: the near bits of
      check_cvv, then the kept vertices and edge crossings appended to v in
      the order v1, v1 -> v2, v2, v2 -> v3, v3, v3 -> v1. */
  method ClipAgainstNear(v: array<Vertex>, v1: Vertex, v2: Vertex, v3: Vertex) returns (n: nat)
    requires v.Length == 4
    modifies v
    ensures n <= 4 && v[..n] == ClipNear(v1, v2, v3)
  {
    ClipNearShape(v1, v2, v3);
    var cp1, cp2, cp3 := CheckCvv(v1.vPosH) & 1, CheckCvv(v2.vPosH) & 1, CheckCvv(v3.vPosH) & 1;
    ghost var p1 := KeepPiece(v1);
    ghost var p2 := p1 + CrossPiece(v1, v2, LineBorderCross(v1.vPosH, v2.vPosH, NearPlane));
    ghost var p3 := p2 + KeepPiece(v2);
    ghost var p4 := p3 + CrossPiece(v2, v3, LineBorderCross(v2.vPosH, v3.vPosH, NearPlane));
    ghost var p5 := p4 + KeepPiece(v3);
    assert ClipNear(v1, v2, v3) == p5 + CrossPiece(v3, v1, LineBorderCross(v3.vPosH, v1.vPosH, NearPlane));
    n := 0;
    n := EmitIfKept(v, n, [], v1, cp1);
    n := EmitCrossing(v, n, p1, v1, v2);
    n := EmitIfKept(v, n, p2, v2, cp2);
    n := EmitCrossing(v, n, p3, v2, v3);
    n := EmitIfKept(v, n, p4, v3, cp3);
    n := EmitCrossing(v, n, p5, v3, v1);
  }

  /** `if (cp == 0) v[n_vertex++] = *x;` */
  method EmitIfKept(v: array<Vertex>, n: nat, ghost pre: seq<Vertex>, x: Vertex, cp: bv8) returns (m: nat)
    requires cp == CheckCvv(x.vPosH) & 1 && n + |KeepPiece(x)| <= v.Length
    requires n <= v.Length && v[..n] == pre
    modifies v
    ensures m == n + |KeepPiece(x)| && v[..m] == pre + KeepPiece(x)
  {
    m := n;
    if cp == 0 {
      v[m] := x;
      m := m + 1;
    }
  }

  /** `f = line_border_inter(a, b, near plane); if (f) v[n_vertex++] =
      interpolation at the ratio;`, with the strict crossing test. */
  method EmitCrossing(v: array<Vertex>, n: nat, ghost pre: seq<Vertex>, a: Vertex, b: Vertex) returns (m: nat)
    requires n + |CrossPiece(a, b, LineBorderCross(a.vPosH, b.vPosH, NearPlane))| <= v.Length
    requires n <= v.Length && v[..n] == pre
    modifies v
    ensures var piece := CrossPiece(a, b, LineBorderCross(a.vPosH, b.vPosH, NearPlane));
      m == n + |piece| && v[..m] == pre + piece
  {
    m := n;
    var f := LineBorderCross(a.vPosH, b.vPosH, NearPlane);
    if f.Hit? {
      v[m] := VertexInterp(a, b, f.ratio);
      m := m + 1;
    }
  }

  /** The loop of cull_and_draw_triangle over the clipped vertices:
      transform_homogenous and then vertex_init_rhw on each. */
  method ToScreen(v: array<Vertex>, n: nat, sw: real, sh: real)
    requires n <= v.Length
    modifies v
    ensures forall j :: 0 <= j < n ==> v[j] == ScreenVertex(sw, sh, old(v[j]))
    ensures forall j :: n <= j < v.Length ==> v[j] == old(v[j])
  {
    for i := 0 to n
      invariant forall j :: 0 <= j < i ==> v[j] == ScreenVertex(sw, sh, old(v[j]))
      invariant forall j :: i <= j < v.Length ==> v[j] == old(v[j])
    {
      v[i] := TransformHomogenous(sw, sh, v[i]);
      v[i] := VertexInitRhw(v[i]);
    }
  }
}
