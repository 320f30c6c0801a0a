/** The shading passes of src/render/shader.c: the vertex pass over an array
    of vertices, the default vertex shader, the fragment pass over the
    g-buffer and the colour packing into the frame buffer. */
module Shader {
  import opened Geom
  import opened Textures
  import opened Render
  import opened Rasterizer

  // ---------------------------------------------------------------------------
  // shade_vertex and default_vs

  /** shade_vertex: the vertex shader `vs` is applied to the first `size`
      vertices in place, in order. The shader only reads the render context,
      so it is given here as a function of the vertex. */
  method ShadeVertex(v: array<Vertex>, size: nat, vs: Vertex -> Vertex)
    requires size <= v.Length
    modifies v
    ensures forall i :: 0 <= i < size ==> v[i] == vs(old(v[i]))
    ensures forall i :: size <= i < v.Length ==> v[i] == old(v[i])
  {
    for i := 0 to size
      invariant forall j :: 0 <= j < i ==> v[j] == vs(old(v[j]))
      invariant forall j :: i <= j < v.Length ==> v[j] == old(v[j])
    {
      v[i] := vs(v[i]);
    }
  }

  /** What default_vs makes of a vertex: the projection of project_vertex
      (vPosH from the original vPos, then vPos and normal through the
      world-camera transform), then the screen mapping and the 1/w
      pre-scaling. */
  function DefaultVertex(tp: Mat44, t: Mat44, sw: real, sh: real, v: Vertex): Vertex
  {
    ScreenVertex(sw, sh, Projected(tp, t, v))
  }

  /** default_vs on one vertex of the context's transform. */
  method DefaultVs(ctx: RenderContext, v: Vertex) returns (r: Vertex)
    requires ctx.transform.transform != null && ctx.transform.transformP != null
    requires ctx.transform.transform.Length == 16 && ctx.transform.transformP.Length == 16
    ensures r == DefaultVertex(ctx.transform.transformP[..], ctx.transform.transform[..],
                               ctx.transform.w, ctx.transform.h, v)
  {
    r := ProjectVertex(ctx, v);
    r := TransformHomogenous(ctx.transform.w, ctx.transform.h, r);
    r := VertexInitRhw(r);
  }

  /** default_vs keeps everything the rasteriser needs: the clip-space
      position tp · vPos can be read back from the screen position, rhw is
      its 1/w, and a fragment stored from the shaded vertex gives back the
      vertex's own texture coordinate and colour. */
  lemma DefaultVertexRecovers(tp: Mat44, t: Mat44, sw: real, sh: real, v: Vertex, cell: GBuff)
    requires sw != 0.0 && sh != 0.0 && MatVec(tp, v.vPos).w != 0.0
    ensures var r := DefaultVertex(tp, t, sw, sh, v);
      && r.rhw == 1.0 / MatVec(tp, v.vPos).w
      && r.vPosH.w != 0.0 && ScreenToClip(sw, sh, r.vPosH) == MatVec(tp, v.vPos)
      && StoreFragment(cell, r).tc == v.tc && StoreFragment(cell, r).vColor == v.vColor
  {
    var p := Projected(tp, t, v);
    HomogenousRoundTrip(sw, sh, p);
    ScreenFragmentRecovers(sw, sh, p, cell);
  }

  // ---------------------------------------------------------------------------
  // shade_fragment

  /** The outcome of shade_fragment: done, or stopped by the TODO of the
      framework mode or the Assert on a missing texture. */
  datatype Outcome = Done | Failed

  /** A sampler of the kind load_sampler returns for a sample mode: a colour
      for texture coordinate (x, y) of an image. */
  type Sampler = (SampleMode, Image, real, real) -> Color

  /** VERTEX_COLOR: the cell's colour becomes its interpolated vertex colour. */
  function VertexColorCell(c: GBuff): GBuff
  {
    c.(color := c.vColor)
  }

  /** SHADED: a hit pixel takes its diffuse colour from the texture at its
      texture coordinate; then every pixel's colour is its diffuse colour. */
  function TexturedCell(sample: Sampler, mode: SampleMode, img: Image, st: u8, c: GBuff): GBuff
  {
    var d := if st > 0 then sample(mode, img, c.tc.x, c.tc.y) else c.diffuseColor;
    c.(diffuseColor := d, color := d)
  }

  /** Both fragment modes only set colours: position, normal, texture
      coordinate, vertex colour and specular term stay as the rasteriser left
      them, so running a mode a second time changes nothing. */
  lemma FragmentModesSettle(sample: Sampler, mode: SampleMode, img: Image, st: u8, c: GBuff)
    ensures var d := VertexColorCell(c);
      d.color == c.vColor && d == c.(color := d.color) && VertexColorCell(d) == d
    ensures var d := TexturedCell(sample, mode, img, st, c);
      && d.color == d.diffuseColor
      && d == c.(diffuseColor := d.diffuseColor, color := d.color)
      && (st > 0 ==> d.diffuseColor == sample(mode, img, c.tc.x, c.tc.y))
      && (st == 0 ==> d.diffuseColor == c.diffuseColor)
      && TexturedCell(sample, mode, img, st, d) == d
  {
  }

  /** shade_fragment. FRAMEWORK mode stops at its TODO, and SHADED mode stops
      at the Assert when there is no texture; neither touches the g-buffer
      then. VERTEX_COLOR copies the vertex colour into every cell, hit or
      not. SHADED samples the context's texture at every hit cell. */
  method ShadeFragment(ctx: RenderContext, sample: Sampler) returns (out: Outcome)
    requires ctx.Valid()
    modifies ctx.gBuffer
    ensures out == Failed <==> ctx.renderMode == Framework || (ctx.renderMode == Shaded && ctx.texture == null)
    ensures out == Failed ==> ctx.gBuffer[..] == old(ctx.gBuffer[..])
    ensures ctx.renderMode == VertexColor ==>
      forall k :: 0 <= k < ctx.width * ctx.height ==> ctx.gBuffer[k] == VertexColorCell(old(ctx.gBuffer[k]))
    ensures ctx.renderMode == Shaded && ctx.texture != null ==>
      forall k :: 0 <= k < ctx.width * ctx.height ==>
        ctx.gBuffer[k] == TexturedCell(sample, ctx.sampleMode, old(ctx.texture.Snapshot()), ctx.stencil[k], old(ctx.gBuffer[k]))
  {
    var len := ctx.width * ctx.height;
    if ctx.renderMode == Framework {
      return Failed;
    } else if ctx.renderMode == VertexColor {
      ApplyVertexColor(ctx.gBuffer, len);
    } else {
      if ctx.texture == null {
        return Failed;
      }
      var img := ctx.texture.Snapshot();
      ApplyTexture(ctx.gBuffer, ctx.stencil, len, sample, ctx.sampleMode, img);
    }
    out := Done;
  }

  /** The VERTEX_COLOR loop of shade_fragment over the first n cells. */
  method ApplyVertexColor(g: array<GBuff>, n: nat)
    requires n <= g.Length
    modifies g
    ensures forall k :: 0 <= k < n ==> g[k] == VertexColorCell(old(g[k]))
    ensures forall k :: n <= k < g.Length ==> g[k] == old(g[k])
  {
    for i := 0 to n
      invariant forall k :: 0 <= k < i ==> g[k] == VertexColorCell(old(g[k]))
      invariant forall k :: i <= k < g.Length ==> g[k] == old(g[k])
    {
      g[i] := g[i].(color := g[i].vColor);
    }
  }

  /** The SHADED loop of shade_fragment over the first n cells. */
  method ApplyTexture(g: array<GBuff>, st: array<u8>, n: nat, sample: Sampler, mode: SampleMode, img: Image)
    requires n <= g.Length && n <= st.Length
    modifies g
    ensures forall k :: 0 <= k < n ==> g[k] == TexturedCell(sample, mode, img, st[k], old(g[k]))
    ensures forall k :: n <= k < g.Length ==> g[k] == old(g[k])
  {
    for i := 0 to n
      invariant forall k :: 0 <= k < i ==> g[k] == TexturedCell(sample, mode, img, st[k], old(g[k]))
      invariant forall k :: i <= k < g.Length ==> g[k] == old(g[k])
    {
      if st[i] > 0 {
        g[i] := g[i].(diffuseColor := sample(mode, img, g[i].tc.x, g[i].tc.y));
      }
      g[i] := g[i].(color := g[i].diffuseColor);
    }
  }

  // ---------------------------------------------------------------------------
  // rgb_to_uint and shade_on_buffer

  /** `c > 255 ? 255 : c`, then `c < 0 ? 0 : c`. */
  function Clamp(c: int): int
  {
    if c > 255 then 255 else if c < 0 then 0 else c
  }

  /** One channel of rgb_to_uint: the float scaled by 255, truncated to an
      int, and clamped to a byte. */
  function Channel(x: real): int
  {
    Clamp(Trunc(x * 255.0))
  }

  /** Channel i of a colour: r, g, b. */
  function Component(t: Color, i: nat): real
  {
    if i == 0 then t.r else if i == 1 then t.g else t.b
  }

  /** `1 << (i << 3)`: the place of channel i in the packed word. */
  function Weight(i: nat): int
  {
    if i == 0 then 1 else if i == 1 then 0x100 else 0x1_0000
  }

  /** The packed word: red in bits 0-7, green in bits 8-15, blue in bits
      16-23. */
  function Pack(t: Color): int
  {
    Channel(t.r) + 0x100 * Channel(t.g) + 0x1_0000 * Channel(t.b)
  }

  /** The sum after the first n channels have been added in. */
  function Packed(t: Color, n: nat): int
  {
    (if n > 0 then Channel(t.r) else 0)
    + (if n > 1 then 0x100 * Channel(t.g) else 0)
    + (if n > 2 then 0x1_0000 * Channel(t.b) else 0)
  }

  /** Every channel is a byte, and a colour already in [0, 1] loses only the
      fraction below 1/255: the channel is the floor of x · 255. Values at
      or above 1 saturate to 255, values at or below 0 to 0. */
  lemma ChannelRange(x: real)
    ensures 0 <= Channel(x) <= 255
    ensures 0.0 <= x <= 1.0 ==> Channel(x) == (x * 255.0).Floor
    ensures x >= 1.0 ==> Channel(x) == 255
    ensures x <= 0.0 ==> Channel(x) == 0
  {
    if 0.0 <= x <= 1.0 {
      assert x * 255.0 <= 255.0;
    }
    if x >= 1.0 {
      assert x * 255.0 >= 255.0;
    }
    if x <= 0.0 {
      assert x * 255.0 <= 0.0;
    }
  }

  /** The packed word is below 2^24 and decodes back into its channels:
      `(res >> 8i) & 0xFF` is channel i for i = 0, 1, 2. */
  lemma PackDecodes(t: Color)
    ensures 0 <= Pack(t) < 0x100_0000
    ensures Pack(t) % 0x100 == Channel(t.r)
    ensures (Pack(t) / 0x100) % 0x100 == Channel(t.g)
    ensures (Pack(t) / 0x1_0000) % 0x100 == Channel(t.b)
  {
    ChannelRange(t.r);
    ChannelRange(t.g);
    ChannelRange(t.b);
    var r, g, b := Channel(t.r), Channel(t.g), Channel(t.b);
    DivModUnique(Pack(t), 0x100, g + 0x100 * b, r);
    DivModUnique(g + 0x100 * b, 0x100, b, g);
    DivModUnique(Pack(t), 0x1_0000, b, r + 0x100 * g);
    DivModUnique(b, 0x100, 0, b);
  }

  /** rgb_to_uint: the three scaled channels, then a loop that clamps each
      and adds it in at its place. */
  method RgbToUint(t: Color) returns (res: u32)
    ensures res as int == Pack(t)
  {
    var c := new int[3];
    c[0], c[1], c[2] := Trunc(t.r * 255.0), Trunc(t.g * 255.0), Trunc(t.b * 255.0);
    res := 0;
    for i := 0 to 3
      invariant res as int == Packed(t, i)
      invariant forall j :: i <= j < 3 ==> c[j] == Trunc(Component(t, j) * 255.0)
    {
      PackedStep(t, i);
      c[i] := if c[i] > 255 then 255 else c[i];
      c[i] := if c[i] < 0 then 0 else c[i];
      res := res + (c[i] * Weight(i)) as u32;
    }
  }

  /** Adding channel i in at its place moves the partial sum from i to i + 1
      channels, and the sum stays below 2^24. */
  lemma PackedStep(t: Color, i: nat)
    requires i < 3
    ensures Packed(t, i + 1) == Packed(t, i) + Clamp(Trunc(Component(t, i) * 255.0)) * Weight(i)
    ensures 0 <= Packed(t, i) && Packed(t, i + 1) < 0x100_0000
  {
    var r, g, b := Channel(t.r), Channel(t.g), Channel(t.b);
    assert 0 <= r <= 255 && 0 <= g <= 255 && 0 <= b <= 255;
    assert Clamp(Trunc(Component(t, i) * 255.0)) == if i == 0 then r else if i == 1 then g else b;
  }

  /** The frame word of one pixel after shade_on_buffer: its packed colour
      when the pixel was hit, 0 otherwise. */
  function FrameWord(st: u8, c: GBuff): int
  {
    if st > 0 then Pack(c.color) else 0
  }

  /** shade_on_buffer: every frame word is set from its pixel's stencil and
      g-buffer colour; the stencil and g-buffer are only read. */
  method ShadeOnBuffer(ctx: RenderContext)
    requires ctx.Valid()
    modifies ctx.frameBuffer
    ensures forall k :: 0 <= k < ctx.width * ctx.height ==>
      ctx.frameBuffer[k] as int == FrameWord(ctx.stencil[k], ctx.gBuffer[k])
  {
    var len := ctx.width * ctx.height;
    for i := 0 to len
      invariant forall k :: 0 <= k < i ==> ctx.frameBuffer[k] as int == FrameWord(ctx.stencil[k], ctx.gBuffer[k])
    {
      if ctx.stencil[i] > 0 {
        ctx.frameBuffer[i] := RgbToUint(ctx.gBuffer[i].color);
      } else {
        ctx.frameBuffer[i] := 0;
      }
    }
  }

  /** After SHADED fragment shading, a hit pixel's frame word is the packed
      texture sample at its texture coordinate, whose red, green and blue
      bytes are the sample's clamped channels; a missed pixel's word is 0. */
  lemma TexturedFrameWord(sample: Sampler, mode: SampleMode, img: Image, st: u8, c: GBuff)
    ensures var s := sample(mode, img, c.tc.x, c.tc.y);
      var w := FrameWord(st, TexturedCell(sample, mode, img, st, c));
      && (st > 0 ==> w == Pack(s) && w % 0x100 == Channel(s.r)
                     && (w / 0x100) % 0x100 == Channel(s.g) && (w / 0x1_0000) % 0x100 == Channel(s.b))
      && (st == 0 ==> w == 0)
  {
    PackDecodes(sample(mode, img, c.tc.x, c.tc.y));
  }

  /** After VERTEX_COLOR fragment shading, a hit pixel's frame word packs the
      colour the rasteriser interpolated for it. */
  lemma VertexColorFrameWord(st: u8, c: GBuff)
    ensures FrameWord(st, VertexColorCell(c)) == (if st > 0 then Pack(c.vColor) else 0)
    ensures 0 <= FrameWord(st, VertexColorCell(c)) < 0x100_0000
  {
    PackDecodes(c.vColor);
  }
}
