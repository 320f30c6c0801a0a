/** The render context of include/render.h and its lifecycle in
    src/render/render.c: the lazily created singleton, buffer set-up and the
    per-frame clear. */
module Render {
  import opened Geom
  import opened Textures

  /** enum RENDER_MODE. */
  datatype RenderMode = Framework | VertexColor | Shaded

  /** The sampler choice the shading pass hands to the sampler loader. */
  datatype SampleMode = Nearest | Bilinear

  /** wg_light_t: a position and a colour. */
  datatype Light = Light(position: Vec4, color: Color)

  /** wg_material_t: the three coefficients the named shaders read. */
  datatype Material = Material(ambient: real, diffuse: real, specular: real)

  /** What one pixel holds across the three buffers the rasteriser writes:
      the depth, the stencil (hit) flag and the g-buffer cell. */
  datatype Pixel = Pixel(depth: real, stencil: u8, cell: GBuff)

  /** The per-frame clear values: hit flag 0, depth 1.0 ("far"). */
  const FarDepth: real := 1.0

  /** wg_render_t, with the fields the rest of the code reads besides the
      ones the header declares (texture, sampleMode, fshaderName, light,
      material). The frame buffer is held as 32-bit words, one per pixel
      (the C code keeps it as bytes, four per pixel). */
  class RenderContext {
    var renderMode: RenderMode
    var sampleMode: SampleMode
    var colorEdge: u32
    var colorFill: u32
    var width: nat
    var height: nat
    var transform: Transform
    var stencil: array?<u8>
    var frameBuffer: array?<u32>
    var zBuffer: array?<real>
    var gBuffer: array?<GBuff>
    var texture: Texture?
    var fshaderName: string
    var light: Light
    var material: Material

    /** The fields that neither the buffer set-up nor the light touch: the
        modes, edge and fill colours, texture, shader name and material. */
    function Settings(): (RenderMode, SampleMode, u32, u32, Texture?, string, Material)
      reads this
    {
      (renderMode, sampleMode, colorEdge, colorFill, texture, fshaderName, material)
    }

    /** The four buffers exist and hold one entry per pixel. */
    predicate Valid()
      reads this
    {
      && stencil != null && frameBuffer != null && zBuffer != null && gBuffer != null
      && stencil.Length == width * height
      && frameBuffer.Length == width * height
      && zBuffer.Length == width * height
      && gBuffer.Length == width * height
    }

    /** The depth, stencil flag and g-buffer cell at offset k. */
    function PixelAt(k: int): Pixel
      requires Valid() && 0 <= k < width * height
      reads this, zBuffer, stencil, gBuffer
    {
      Pixel(zBuffer[k], stencil[k], gBuffer[k])
    }

    /** The frame is cleared: every hit flag 0, every frame word 0, every
        depth 1.0. */
    ghost predicate Cleared()
      requires Valid()
      reads this, stencil, frameBuffer, zBuffer
    {
      forall i :: 0 <= i < width * height ==>
        stencil[i] == 0 && frameBuffer[i] == 0 && zBuffer[i] == FarDepth
    }

    /** The freshly allocated context of try_init_render: shader name
        "default", every buffer pointer and every matrix pointer NULL. The
        other fields are whatever malloc left, so nothing is promised about
        them. */
    constructor ()
      ensures fshaderName == "default"
      ensures stencil == null && frameBuffer == null && zBuffer == null && gBuffer == null
      ensures fresh(transform)
      ensures transform.world == null && transform.camera == null && transform.projection == null
      ensures transform.transform == null && transform.transformP == null
    {
      fshaderName := "default";
      stencil, frameBuffer, zBuffer, gBuffer := null, null, null, null;
      transform := new Transform();
    }

    /** set_up_render: store the size, allocate the four buffers at one entry
        per pixel and the two combined matrices, and give the transform the
        viewport size. Everything else stays as it was. */
    method SetUpRender(w: nat, h: nat)
      modifies this, transform
      ensures width == w && height == h
      ensures Valid()
      ensures fresh(stencil) && fresh(frameBuffer) && fresh(zBuffer) && fresh(gBuffer)
      ensures transform == old(transform)
      ensures transform.transform != null && transform.transformP != null
      ensures fresh(transform.transform) && fresh(transform.transformP)
      ensures transform.transform.Length == 16 && transform.transformP.Length == 16
      ensures transform.w == w as real && transform.h == h as real
      ensures transform.world == old(transform.world) && transform.camera == old(transform.camera)
      ensures transform.projection == old(transform.projection)
      ensures Settings() == old(Settings()) && light == old(light)
    {
      transform.SetUp(w as real, h as real);
      var s, f, z, g := NewBuffers(w * h);
      width, height := w, h;
      stencil, frameBuffer, zBuffer, gBuffer := s, f, z, g;
    }

    /** clear_render: hit flags to 0, frame words to 0, depths to 1.0; the
        g-buffer is not touched. Clearing a cleared frame changes nothing, so
        clearing twice is clearing once. */
    method ClearRender()
      requires Valid()
      modifies stencil, frameBuffer, zBuffer
      ensures Cleared()
      ensures old(Cleared()) ==>
        stencil[..] == old(stencil[..]) && frameBuffer[..] == old(frameBuffer[..]) && zBuffer[..] == old(zBuffer[..])
    {
      var len := width * height;
      ghost var wasCleared := Cleared();
      for i := 0 to len
        modifies stencil
        invariant forall j :: 0 <= j < i ==> stencil[j] == 0
        invariant forall j :: i <= j < len ==> stencil[j] == old(stencil[j])
      {
        stencil[i] := 0;
      }
      for i := 0 to len
        modifies frameBuffer
        invariant forall j :: 0 <= j < i ==> frameBuffer[j] == 0
        invariant forall j :: i <= j < len ==> frameBuffer[j] == old(frameBuffer[j])
      {
        frameBuffer[i] := 0;
      }
      for i := 0 to len
        modifies zBuffer
        invariant forall j :: 0 <= j < i ==> zBuffer[j] == FarDepth
        invariant forall j :: i <= j < len ==> zBuffer[j] == old(zBuffer[j])
      {
        zBuffer[i] := FarDepth;
      }
      if wasCleared {
        assert stencil[..] == old(stencil[..]);
        assert frameBuffer[..] == old(frameBuffer[..]);
        assert zBuffer[..] == old(zBuffer[..]);
      }
    }

    /** set_light: the colour is copied; the position is stored after the
        combined world-camera transform. */
    method SetLight(l: Light)
      requires transform.transform != null && transform.transform.Length == 16
      modifies this
      ensures transform == old(transform)
      ensures light == Light(MatVec(transform.transform[..], l.position), l.color)
      ensures Settings() == old(Settings())
      ensures width == old(width) && height == old(height)
      ensures stencil == old(stencil) && frameBuffer == old(frameBuffer)
      ensures zBuffer == old(zBuffer) && gBuffer == old(gBuffer)
    {
      light := light.(color := l.color);
      var p := MatVecMul4(transform.transform, l.position);
      light := light.(position := p);
    }
  }

  /** The four per-pixel buffers set_up_render allocates, n entries each. */
  method NewBuffers(n: nat) returns (s: array<u8>, f: array<u32>, z: array<real>, g: array<GBuff>)
    ensures fresh(s) && fresh(f) && fresh(z) && fresh(g)
    ensures s.Length == n && f.Length == n && z.Length == n && g.Length == n
  {
    s, f, z, g := new u8[n], new u32[n], new real[n], new GBuff[n];
  }

  /** The static `render` pointer of src/render/render.c, which starts out
      NULL. */
  class RenderHolder {
    var render: RenderContext?

    constructor ()
      ensures render == null
    {
      render := null;
    }

    /** get_render (with try_init_render): the first call creates the
        context; every later call returns that same context untouched. */
    method GetRender() returns (r: RenderContext)
      modifies this
      ensures render == r
      ensures old(render) != null ==> r == old(render)
      ensures old(render) == null ==>
        && fresh(r) && fresh(r.transform) && r.fshaderName == "default"
        && r.stencil == null && r.frameBuffer == null && r.zBuffer == null && r.gBuffer == null
        && r.transform.world == null && r.transform.camera == null && r.transform.projection == null
        && r.transform.transform == null && r.transform.transformP == null
    {
      if render == null {
        render := new RenderContext();
      }
      r := render;
    }
  }

  /** A second get_render returns the context of the first, and the holder
      is left pointing at it. */
  method GetRenderTwice(holder: RenderHolder) returns (a: RenderContext, b: RenderContext)
    modifies holder
    ensures a == b && holder.render == a
  {
    a := holder.GetRender();
    b := holder.GetRender();
  }
}
