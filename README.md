# wjgl rasteriser core in Dafny

This project models the core of wjgl, a small software rasteriser written in
C, and proves properties of the model. Six parts are covered:

- **Geom** (`geom.dfy`): the vector, matrix, transform and vertex arithmetic.
  This is the `wg_vec4f`, `wg_mat44f`, `wg_transform_t`, `wg_vertex_t` and
  `wg_gbuff_t` types of the geometry header, with the operations of the
  geometry source.
- **Textures** (`textures.dfy`): the texture buffer. It has a bounds-checked
  pixel fetch and the checkerboard fill.
- **Render** (`render.dfy`): the render context. This covers its lazily
  created singleton, buffer set-up, per-frame clear and light set-up.
- **Rasterizer** (`rasterizer.dfy`): the scan converter. This covers the
  view-volume bits, near-plane clipping, splitting a triangle into
  trapezoids, and drawing them scanline by scanline with the depth test into
  the depth, stencil and g-buffer.
- **Shader** (`shader.dfy`): the shading passes. This covers the vertex pass,
  the default vertex shader, the fragment pass in its three render modes,
  colour packing and the frame-buffer pass.
- **Meshes** (`mesh.dfy`): the mesh. This covers the copy of mesh attributes
  into vertices and the fixed two-triangle plane.

How C constructs are modelled:

- A `float` is a `real`.
- `ceilf` is `Geom.Ceil`.
- The C float-to-int conversion truncates toward zero; it is `Geom.Trunc`.
- A reciprocal `1.0f / x` whose divisor may vanish goes through `Geom.Recip`.
  `Geom.Recip` gives 0 at 0, where C would produce an infinity.
- Unsigned integers are the newtypes `u8` and `u32`. Where the C code wraps,
  the model wraps explicitly.

Code that changes state is modelled as imperative Dafny:

- The matrix products work on `array<real>` through a temporary.
- The texture, render context, transform and mesh are classes whose methods
  update their fields.
- The drawing, shading and clearing passes are loops over the buffers.

The rasteriser is specified pixel by pixel:

- Every drawing step is a function from the old `Pixel` at an offset (depth,
  stencil flag and g-buffer cell) to the new one.
- Each drawing method is proved to leave every offset of the frame in the
  state that function gives.
- The function chain is `DepthTest` → `ScanlineAt` → `TrapezoidAt` →
  `TriangleAt` → `FanAt`.

## Model

| member | source | states |
|---|---|---|
| Geom.Ceil | src/render/rasterizer.c:240-246 | ceilf: the least integer not below x |
| Geom.Trunc | src/render/shader.c:51-53 | the C float-to-int conversion: rounds toward zero, for negative values too |
| Geom.UnionViewsAgree | include/geom.h:6-11 | the named fields x, y, z, w and the array view v[0..3] of a vector are the same storage: converting either way and back is the identity |
| Geom.RowMajorLayout | include/geom.h:14-25 | entry (i, j) of a matrix is v[4i+j]; `_11`, `_23`, `_44` are v[0], v[6], v[15]; every storage index is exactly one entry |
| Geom.V4Add | src/geom.c:6-8 | the sum always has w = 1 |
| Geom.V4Sub | src/geom.c:10-12 | the difference always has w = 1 |
| Geom.V4Mul | src/geom.c:14-16 | the scaled vector always has w = 1 |
| Geom.V4Div | src/geom.c:18-21 | the divided vector always has w = 1 |
| Geom.V4Inverses | src/geom.c:6-21 | add then sub (and sub then add) of the same vector gives back the x, y, z part; dividing by s undoes multiplying by s for s ≠ 0; a − a is the zero direction |
| Geom.V4Dot | src/geom.c:23-25 | a vector's dot product with itself is its squared length: never negative, and zero only when x, y and z are all zero |
| Geom.V4DotIgnoresW | src/geom.c:23-25 | the dot product does not depend on either w and is symmetric |
| Geom.V4Cross | src/geom.c:27-33 | the cross product always has w = 1; its orthogonality is stated by V4CrossOrthogonal |
| Geom.V4CrossOrthogonal | src/geom.c:27-33 | the cross product is orthogonal to both factors and anti-commutes |
| Geom.Lerp | src/geom.c:35-37 | lerp at 0 is a, at 1 is b, and it moves linearly: lerp − a = x·(b − a) |
| Geom.LerpVec4 | src/geom.c:39-46 | vector lerp is a at 0 and b at 1, with w interpolated too |
| Geom.LerpBetween | src/geom.c:35-37 | with a ratio in [0, 1] the lerp stays between the end points |
| Geom.MatMul | src/geom.c:58-73 | the output holds the row-major product of the inputs' old contents, even when the output is one of the inputs |
| Geom.MatVecMul4 | src/geom.c:75-84 | the result is the matrix–vector product (row i is the dot product of row i with the vector, w included) |
| Geom.GetIdenticalMat | src/geom.c:123-126 | the matrix becomes the identity: 1 on the diagonal, 0 elsewhere |
| Geom.IdentityNeutral | src/geom.c:123-126 | the identity leaves a vector unchanged, and multiplying a matrix by it on either side gives that matrix back |
| Geom.GetTranslationMat | src/geom.c:95-99 | the matrix becomes the identity with `_14`, `_24`, `_34` set to dx, dy, dz |
| Geom.TranslationMoves | src/geom.c:95-99 | translation moves a point (w = 1) by (dx, dy, dz), leaves a direction (w = 0) unchanged, and two translations compose by adding offsets |
| Geom.Transform.Update | src/geom.c:128-131 | transform_p becomes projection·(camera·world), with the projection read as camera·world when it is the transform matrix itself; transform becomes camera·world unless it is the same matrix as transform_p |
| Geom.Transform.Apply | src/geom.c:133-135 | the output is transform·x, and x is not changed |
| Geom.TransformHomogenous | src/geom.c:137-147 | only vPosH changes; for w ≠ 0, w' = 1/w, z' = z/w, x' = (x/w·½+½)·W, y' = (½−y/w·½)·H |
| Geom.HomogenousRoundTrip | include/geom.h:99-103 | for w ≠ 0 and a non-empty viewport, the clip-space position can be recovered exactly from the screen position |
| Geom.HomogenousInViewport | src/geom.c:137-147 | a point with \|x\|, \|y\| ≤ w and w > 0 lands inside [0, W] × [0, H] |
| Geom.VertexInitRhw | src/geom.c:149-159 | rhw becomes vPosH.w; vPosH and the w of vPos and normal are kept; what the scaling of vPos, normal, tc and vColor by rhw does is stated by Geom.InitRhwRecovers |
| Geom.InitRhwRecovers | src/geom.c:149-159 | multiplying by 1/rhw recovers the x, y, z of vPos, the normal direction, texture coordinate and colour that vertex_init_rhw pre-scaled (for w ≠ 0) |
| Geom.VertexAdd | src/geom.c:161-171 | the w of vPos and normal are unchanged by the add |
| Geom.VertexSub | src/geom.c:173-183 | the w of vPos and normal are unchanged by the subtract |
| Geom.VertexAddSubInverse | include/geom.h:108-112 | y += x then y −= x (and the reverse order) give y back |
| Geom.VertexScale | src/geom.c:185-195 | the w of vPos and normal are unchanged by the scale |
| Geom.VertexScaleCompose | src/geom.c:185-195 | scaling by a then b is scaling by a·b; scaling by 1 is the identity |
| Geom.VertexStep | src/geom.c:197-201 | the step keeps r's w of vPos and normal |
| Geom.StepReachesRight | src/geom.c:197-201 | when the span r.x − l.x + 1e-6 is non-zero, l plus span × step agrees with r on every interpolated field |
| Geom.AdvanceLinear | src/render/rasterizer.c:263-287 | after n column advances of draw_scanline, vPosH has moved by n·step and rhw by n·step.rhw |
| Geom.VertexInterpAsWritten | src/geom.c:203-213 | the repository's vertex_interp: tc.y is lerped between the tc.x values; it equals the corrected interpolation with both tc components replaced by that value |
| Geom.VertexInterpAsWrittenLosesTcY | src/geom.c:208 | at ratio 0 the as-written interpolation turns texture coordinate (0, 1) into (0, 0), so it does not return its first vertex |
| Geom.VertexInterp | src/geom.c:203-213 | the corrected interpolation is v1 at 0 and v2 at 1 in every field, and vPosH is the vector lerp |
| Textures.PixelIndexBijective | src/texture.c:34-38 | x + y·width is below width·height for an in-range pixel, every index below width·height is exactly one pixel, and no two pixels share an index |
| Textures.Texture.constructor | src/texture.c:10-17 | width and height are stored; len is width·height·4 computed modulo 2^32; when that does not wrap, the storage holds exactly one word per pixel |
| Textures.Texture.GetPixel | src/texture.c:34-38 | the fetch succeeds exactly when x < width and y < height, and then returns the word at x + y·width; outside the image it is the fatal Assert |
| Textures.Texture.SetCheckboardTexture | src/texture.c:45-56 | every pixel (x, y) is set to c1 when y/v + x/u is odd and to c2 otherwise |
| Textures.CheckerBlocks | src/texture.c:49-53 | every pixel is c1 or c2, pixels in one u × v block share a colour, and horizontally adjacent blocks differ when c1 ≠ c2 |
| Render.RenderContext.constructor | src/render/render.c:7-22 | the fresh context has shader name "default" and every buffer and matrix pointer NULL |
| Render.RenderHolder.GetRender | src/render/render.c:24-27 | the first call creates the context as try_init_render leaves it; later calls return the same context unchanged |
| Render.GetRenderTwice | src/render/render.c:5-27 | two get_render calls return the same context, and the holder points at it |
| Render.RenderContext.SetUpRender | src/render/render.c:29-41 | the size is stored, the four buffers are fresh with w·h entries each, the two combined matrices are fresh with 16 entries, the transform gets the viewport size, and nothing else changes |
| Render.RenderContext.ClearRender | src/render/render.c:43-48 | every stencil flag and frame word becomes 0 and every depth 1.0; the g-buffer is untouched; clearing a cleared frame changes nothing |
| Render.RenderContext.SetLight | src/render/render.c:50-53 | the light's colour is copied, its position becomes transform·position, and nothing else changes |
| Rasterizer.MapCoordToOffset | src/render/rasterizer.c:87-89 | inside the frame the offset width·y + x gives back row y by division and column x by remainder |
| Rasterizer.StoreFragment | src/render/rasterizer.c:277-283 | the cell takes the fragment's screen position; its model position, diffuse colour, specular term and final colour are left as they were |
| Rasterizer.DepthTest | src/render/rasterizer.c:272-284 | the stored depth becomes the smaller of the old depth and the fragment's; a pixel that changes is marked hit and holds the stored fragment |
| Rasterizer.DepthTestKeepsNearest | src/render/rasterizer.c:272-284 | the depth test keeps the smaller depth and marks the pixel hit when the fragment is nearer; a fragment that is not nearer changes nothing; vPos, diffuse, specular and final colour are untouched; repeating the test changes nothing |
| Rasterizer.DepthTestCommutes | src/render/rasterizer.c:272-284 | two fragments of different depths leave the same pixel in either drawing order |
| Rasterizer.DepthTestTieKeepsFirst | src/render/rasterizer.c:274 | with equal depths nearer than the stored one, whichever fragment is drawn first stays |
| Rasterizer.StoreFragmentRecovers | src/render/rasterizer.c:272-283 | the stored normal, texture coordinate and colour of a pre-scaled vertex, multiplied by 1/rhw, are the vertex's own |
| Rasterizer.DrawFragment | src/render/rasterizer.c:272-284 | the pixel at the offset ends as the depth test of the fragment leaves it, and every other pixel is unchanged |
| Rasterizer.ScanlineStaysInRow | src/render/rasterizer.c:263-287 | a scanline changes no pixel outside its own row |
| Rasterizer.ScanlineNearer | src/render/rasterizer.c:272-284 | a scanline only lowers depths |
| Rasterizer.DrawScanline | src/render/rasterizer.c:254-288 | every pixel ends as ScanlineAt gives it: only columns 0 ≤ x < width among the w columns from s.x in row y are depth-tested, with the vertex advanced once per column; every other pixel is unchanged |
| Rasterizer.RowScanlineSpan | src/render/rasterizer.c:243-249 | the row's scanline starts on column ceil(l.x), ends before ceil(r.x), starts exactly at x = ceil(l.x), and its step reaches the right edge |
| Rasterizer.TrapezoidNearer | src/render/rasterizer.c:240-242 | a trapezoid only lowers depths, and pixels of rows it does not draw are unchanged |
| Rasterizer.DrawTrapezoid | src/render/rasterizer.c:232-252 | every pixel ends as TrapezoidAt gives it: rows ceil(top) ≤ y < bottom inside the frame get the scanline built at edge ratio YStart + (y − ceil(top))·YStep; no other row changes |
| Rasterizer.Sort3 | src/render/rasterizer.c:101-103 | the three compare-and-swaps sort the vertices by y, and the result is one of the six orderings of the inputs |
| Rasterizer.SplitTrapezoid | src/render/rasterizer.c:91-120 | split_trapezoid returns one trapezoid exactly when two of the y-sorted vertices share a y; two trapezoids share the cut edge and meet at one y (the full geometry is SplitShape) |
| Rasterizer.SplitShape | src/render/rasterizer.c:104-119 | one trapezoid exactly when two vertices share a y, two otherwise; each trapezoid has its left edge left of its right edge at top and bottom; a split meets at the middle y, shares the cut vertices, and spans from the lowest to the highest y |
| Rasterizer.SplitRowsDisjoint | src/render/rasterizer.c:114-119 | the two trapezoids of a split never draw the same row |
| Rasterizer.TriangleNearer | src/render/rasterizer.c:218-230 | a triangle only lowers depths, and each pixel is drawn by at most one of its trapezoids |
| Rasterizer.DrawTriangle | src/render/rasterizer.c:218-230 | every pixel ends as TriangleAt gives it: the first trapezoid, then the second when the split made two |
| Rasterizer.CheckCvv | src/render/rasterizer.c:57-67 | bit 0 is set iff z < 0, bit 1 iff z > w, bit 2 iff x < −w, bit 3 iff x > w, bit 4 iff y < −w, bit 5 iff y > w |
| Rasterizer.CheckCvvInside | src/render/rasterizer.c:57-67 | the result is 0 exactly when the point is inside the canonical view volume, and it is below 64 |
| Rasterizer.LineBorderInter | src/render/rasterizer.c:77-85 | the repository's test: a miss exactly when d1·d2 > 0, the Assert fails exactly when both distances are 0, and a hit's ratio lies in [0, 1] at the point where the distance vanishes |
| Rasterizer.LineBorderCross | src/render/rasterizer.c:77-85 | the corrected strict test: a hit exactly when d1·d2 < 0, with the ratio strictly inside (0, 1) where the distance vanishes; a hit agrees with the repository's test |
| Rasterizer.ClipAsWritten | src/render/rasterizer.c:173-200 | with the repository's crossing test the clipper stops exactly when some edge lies in the plane z = 0 (the ratio Assert at line 83) or when the walk writes more than four vertices (the Assert at line 200); otherwise the polygon is the vertices written, at most four |
| Rasterizer.ClipNear | src/render/rasterizer.c:181-199 | the corrected clipper builds at most four vertices |
| Rasterizer.ClipAsWrittenOverflows | src/render/rasterizer.c:173-200 | with the repository's test, the triangle with z = (0, 1, 1), which has no edge in the plane, makes five vertices, one more than v[4] holds, and the Assert at line 200 stops the program |
| Rasterizer.ClipAsWrittenAtMostFive | src/render/rasterizer.c:173-200 | with the repository's test and no edge in the plane z = 0, the walk writes at most five vertices, so v[4] overflows by one entry at most |
| Rasterizer.ClipNearShape | src/render/rasterizer.c:173-200 | the corrected clipper makes at most four vertices, all with z ≥ 0; a triangle wholly in front comes back unchanged and one wholly behind vanishes |
| Rasterizer.CrossFront | src/render/rasterizer.c:182-198 | an edge crossing lies on z = 0 and only occurs on an edge with one end behind and one strictly in front |
| Rasterizer.ClipAgreesOffPlane | src/render/rasterizer.c:173-200 | when no vertex has z = 0 the clipper with the repository's crossing test and the one with the corrected test build the same polygon, and a triangle straddling the plane becomes three or four vertices |
| Rasterizer.EdgeOffPlane | src/render/rasterizer.c:80 | for end points off the plane both tests agree, and the edge is crossed exactly when one end is kept and the other is not |
| Rasterizer.ClipAgainstNear | src/render/rasterizer.c:181-199 | the vertex array receives, in order, v1 if kept, the v1→v2 crossing, v2 if kept, the v2→v3 crossing, v3 if kept, the v3→v1 crossing; at most four entries |
| Rasterizer.Projected | src/render/rasterizer.c:127-131 | projection keeps the texture coordinate, colour and rhw |
| Rasterizer.ProjectedIdentity | src/render/rasterizer.c:127-131 | with identity matrices projection only copies the model position into vPosH, so vPosH comes from the position before it is overwritten |
| Rasterizer.ProjectVertex | src/render/rasterizer.c:127-131 | the vertex gets vPosH = transform_p·vPos read before vPos is overwritten, then vPos and normal through transform |
| Rasterizer.ProjectVertexes | src/render/rasterizer.c:133-140 | the first `size` vertices are projected in place; the rest are unchanged |
| Rasterizer.ScreenFragmentRecovers | src/render/rasterizer.c:204-207 | a fragment stored from a homogenised, pre-scaled vertex gives back that vertex's texture coordinate, colour and normal direction |
| Rasterizer.FanNearer | src/render/rasterizer.c:209-215 | drawing a clipped triangle only lowers depths, and a triangle wholly behind the near plane draws nothing |
| Rasterizer.CullAndDrawTriangle | src/render/rasterizer.c:150-216 | every pixel ends as FanAt gives it for the homogenised near-clipped polygon: nothing for fewer than three vertices, triangle (0, 1, 2), and triangle (0, 2, 3) for a quad |
| Rasterizer.DrawPolygon | src/render/rasterizer.c:209-215 | the fan drawn from the first n vertices of the array: nothing for n ≤ 2, (0, 1, 2), and (0, 2, 3) when n = 4 |
| Rasterizer.ToScreen | src/render/rasterizer.c:204-207 | each of the first n vertices is homogenised and then pre-scaled by its 1/w; the entries from n on are unchanged |
| Shader.ShadeVertex | src/render/shader.c:7-14 | the vertex shader is applied, in place, to vertices 0..size−1 and no others |
| Shader.DefaultVs | src/render/shader.c:16-22 | the vertex is projected (vPosH from the original vPos), homogenised to the viewport and pre-scaled by its 1/w |
| Shader.DefaultVertexRecovers | src/render/shader.c:16-22 | after default_vs, rhw is 1/w of the clip position, the clip position can be read back from the screen position, and a stored fragment recovers the vertex's texture coordinate and colour |
| Shader.FragmentModesSettle | src/render/shader.c:28-44 | both modes only set colours: VERTEX_COLOR makes color = vColor; SHADED makes color = diffuseColor, samples only hit pixels and keeps a missed pixel's diffuse colour; a second run changes nothing |
| Shader.ShadeFragment | src/render/shader.c:24-46 | FRAMEWORK, and SHADED without a texture, fail without touching the g-buffer; VERTEX_COLOR sets every cell's colour to its vertex colour regardless of the stencil; SHADED samples the texture at the texture coordinate of each hit cell, then sets every colour to the diffuse colour |
| Shader.ChannelRange | src/render/shader.c:51-56 | each channel is a byte: the floor of c·255 for c in [0, 1], 255 for c ≥ 1, and 0 for c ≤ 0 |
| Shader.PackDecodes | src/render/shader.c:54-58 | the packed word is below 2^24, and its bytes 0, 1, 2 are the clamped red, green and blue channels |
| Shader.RgbToUint | src/render/shader.c:48-60 | the loop's result is the word with red in bits 0-7, green in 8-15 and blue in 16-23 |
| Shader.ShadeOnBuffer | src/render/shader.c:62-74 | every frame word is the packed g-buffer colour where the stencil is set and 0 elsewhere; only the frame buffer changes |
| Shader.TexturedFrameWord | src/render/shader.c:34-74 | after SHADED shading, a hit pixel's frame word packs the texture sample at its coordinate, byte by byte; a missed pixel's word is 0 |
| Shader.VertexColorFrameWord | src/render/shader.c:28-74 | after VERTEX_COLOR shading, a hit pixel's frame word packs its interpolated vertex colour; every word is below 2^24 |
| Meshes.AssembleVertex | src/scene/mesh.c:5-15 | the result holds nVertex vertices (the count read as uint32_t), and vertex i takes position, normal, texture coordinate and colour from the mesh arrays at i |
| Meshes.MeshPlane | src/scene/mesh.c:25-55 | the plane has 4 vertices and 2 triangles with indices [0, 3, 1, 0, 2, 3]; vertex p = 2i + j is at ((2j−1)·w/2, (2i−1)·h/2, 0, 1) with normal (0, 0, 1, 0), texture coordinate (j, i) and colour (.5+.5i, 1−.5j, .5) |
| Meshes.PlaneTrianglesCover | src/scene/mesh.c:50-52 | every index is below 4, both triangles contain the diagonal 0–3, and together they use all four vertices |
| Meshes.PlaneGeometry | src/scene/mesh.c:36-47 | opposite corners mirror each other through the centre, the texture coordinate is the position rescaled to [0, 1]², and both triangles have the same winding, each covering half of the w × h rectangle |
| Meshes.PlaneColorsInUnit | src/scene/mesh.c:45 | every corner colour channel is in [0, 1] |

## Left out

- Floating point: IEEE rounding, infinities and NaN are not modelled; every
  `float` is an exact real. Where the C code divides by a value that may
  vanish (`1.0f / rhw` in draw_scanline, `1.0f / (bottom - top)` in
  draw_trapezoid, `1.0f / b` in v4f_div, `1.0f / posH->w` in
  transform_homogenous, `1. / (r->x - l->x + 1e-6)` in vertex_step), `Geom.Recip` takes 0 instead of
  an infinity. On a zero-height trapezoid the first edge ratio is 0/0 in C;
  the model takes 0 (`Rasterizer.YStart`), and no row is drawn then.
- Rasterizer.ScanlineStart: when both edges of a row have the same x the C ratio is a division by zero; the model takes the left vertex, and that scanline is zero columns wide.
- The edge ratio of draw_trapezoid is accumulated by repeated addition; the model states it as the exact real `YStart + n·YStep`.
- Shader.RgbToUint: a channel whose product with 255 does not fit in an int is undefined behaviour in C; the model truncates the exact product and then clamps it.
- normalize_vec4f, get_projection_mat and get_lookat_mat use sqrt and tan; they are not part of this model. So is the Blinn-Phong shader of the light demo.
- The texture sampler (load_sampler, nearest and bilinear sampling) is not part of this model. It is the parameter `Shader.Sampler`, applied to the sample mode and an image of the texture. The shader registry, color_mul_add and set_chessboard_texture are not part of this model either.
- Shader.ShadeVertex: the vertex shader is a function of the vertex. The C function pointer receives the context read-only, so it is written as a closure over the matrices.
- Memory management is not modelled: malloc/free, the leak of repeated set_up_render calls, destroy_mesh and delete_texture. Fields malloc leaves uninitialised (the render context's other fields, the transform's viewport size w and h before set_up_render, which `Geom.Transform.constructor` therefore does not promise, the transform matrices' contents, the vertices' other fields in assemble_vertex) are left unspecified.
- Log output and the printing inside Assert are not modelled. An Assert or TODO that stops the program is an error result: `Textures.Fetch.Fatal`, `Rasterizer.Inter.Fault` (the ratio Assert at src/render/rasterizer.c:83), `Rasterizer.Clip.ClipFault` (that Assert, or the vertex-count Assert at src/render/rasterizer.c:200), `Shader.Outcome.Failed`.
- Rasterizer.ClipAsWritten: when the walk emits a fifth vertex, the C code writes it into v[4], past the end of the four-entry array, before the Assert at line 200 stops the program. The model reports the Assert (`ClipFault`) and does not model the out-of-bounds write.
- Render.RenderContext: the frame buffer is one 32-bit word per pixel; the C code stores those words into a byte buffer, four bytes per pixel, and clear_render zeroes the 4·w·h bytes. The byte layout is not modelled.
- Render.RenderContext: width and height are natural numbers. The C fields are uint32_t set from int parameters, and the int products `width * height` (and `width * y + x` in map_coord_to_offset) can overflow; the model assumes they do not.
- Render.RenderHolder: the static `render` pointer of the render source is an object holding the context, so that its first-call and later-call behaviour can be stated.
- Geom.VertexAdd, Geom.VertexSub, Geom.VertexScale, Geom.VertexInitRhw, Geom.TransformHomogenous: the C functions update a vertex through a pointer; the model returns the new vertex as a value. No caller passes aliased vertices, so nothing about aliasing is lost. Their fixed 3- and 4-iteration component loops are written out.
- Geom.MatMul: the composition law MatVec(a·b, v) = MatVec(a, MatVec(b, v)) is not proved.
- Textures.Texture.constructor: the byte length wraps modulo 2^32 before the cast to size_t. When it wraps the storage is smaller than the image, and the model then promises nothing about `Fits`.
- Textures.Texture.SetCheckboardTexture: requires u > 0 and v > 0. A zero block size divides by zero in C, and C's truncating division with negative block sizes is not modelled.
- Meshes.AssembleVertex: assumes the mesh arrays hold nVertex entries, which mesh_plane guarantees but the C code never checks.
- Rasterizer.CullAndDrawTriangle: uses the corrected crossing test `Rasterizer.LineBorderCross` (see Findings). Off the near plane it agrees with the repository's test (`Rasterizer.ClipAgreesOffPlane`).
- Rasterizer.DrawTrapezoid: the stored texture coordinate differs from the program's. Every interpolation in the rasteriser (the cut vertex of split_trapezoid, the edges and the start of each scanline in draw_trapezoid, the crossing points of the clipper) uses the corrected `Geom.VertexInterp`, so a fragment's stored tc.y is the interpolated tc.y. The program calls the as-written vertex_interp at src/render/rasterizer.c:115, 184, 191, 197, 243, 244 and 248, so it stores the interpolated tc.x there (and the scanline step's tc.y is its tc.x). `Geom.VertexInterpAsWritten` differs from the corrected interpolation only in tc.y. The rasteriser itself never reads tc.y, so the depth, the hit flag and the other stored fields are unaffected. The SHADED pass of shade_fragment does read it: it samples the texture at (tc.x, tc.y) (src/render/shader.c:41), so in that mode the program samples a different texel and its frame words differ from the model's. The model shows the image the corrected pipeline draws. None of this is stated as a lemma.
- Shader.ShadeFragment: in SHADED mode the texture is sampled at the stored tc.y, which the program fills from tc.x (see Rasterizer.DrawTrapezoid); the model samples at the corrected coordinate.
- Shader.TexturedFrameWord: the frame word packs the sample at the corrected texture coordinate, not at the program's (see Rasterizer.DrawTrapezoid).
- Rasterizer.DrawTriangle: the stored texture coordinate differs from the program's, for the reason given under Rasterizer.DrawTrapezoid.
- Rasterizer.DrawPolygon: the stored texture coordinate differs from the program's, for the reason given under Rasterizer.DrawTrapezoid.
- Rasterizer.CullAndDrawTriangle: the stored texture coordinate differs from the program's, for the reason given under Rasterizer.DrawTrapezoid.
- Rasterizer.ClipAgainstNear: the stored texture coordinate differs from the program's, for the reason given under Rasterizer.DrawTrapezoid.
- Rasterizer.ClipAgreesOffPlane: the texture coordinate of a crossing point differs from the program's. Both clippers it relates (`ClipAsWritten` and `ClipNear`) interpolate crossing points with the corrected `Geom.VertexInterp`. So the equality it proves is between the two crossing tests, not with the program's tc.y, which is the interpolated tc.x (see Rasterizer.DrawTrapezoid).
- Rasterizer.SplitTrapezoid: the stored texture coordinate differs from the program's, for the reason given under Rasterizer.DrawTrapezoid.
- Rasterizer.RowScanline: the stored texture coordinate differs from the program's, for the reason given under Rasterizer.DrawTrapezoid.
- Rasterizer.ScanlineStart: the stored texture coordinate differs from the program's, for the reason given under Rasterizer.DrawTrapezoid.
- Rasterizer.CrossPiece: the stored texture coordinate differs from the program's, for the reason given under Rasterizer.DrawTrapezoid.
- Rasterizer.EmitCrossing: the stored texture coordinate differs from the program's, for the reason given under Rasterizer.DrawTrapezoid.
- Drawing order: two fragments at different depths leave the same pixel in either order (`Rasterizer.DepthTestCommutes`). At equal depth the strict test `z < *depth` (src/render/rasterizer.c:274) keeps the first fragment drawn, so the order matters then (`Rasterizer.DepthTestTieKeepsFirst`).
- Header versus code: the header documents vertex_add as `y += x` field by field, but the code leaves the w of vPos and normal alone. The model follows the code.
- The demo and test programs (PNG output, file I/O, stencil printing) are not part of this model.

## Findings

| source | as written | input that shows it | evidently intended | confidence | as-written member | corrected member |
|---|---|---|---|---|---|---|
| src/geom.c:208 | vertex_interp lerps tc.y between v1->tc.x and v2->tc.x | v1 = v2 with tc = (0, 1), ratio 0: the result has tc = (0, 0), not v1's (0, 1) | tc.y lerped between v1->tc.y and v2->tc.y, like every other field | high (not executed) | Geom.VertexInterpAsWritten, Geom.VertexInterpAsWrittenLosesTcY | Geom.VertexInterp |
| src/render/rasterizer.c:80 | line_border_inter reports a crossing when dist1·dist2 ≤ 0, so a vertex exactly on z = 0 is kept (line 60) and also counted as the crossing of both its edges | the triangle with vPosH.z = (0, 1, 1) and w = 1 yields five vertices, which write past v[4] before the Assert at line 200 stops the program | a crossing only when the end points are strictly on opposite sides (dist1·dist2 < 0), giving at most four vertices as the comment at lines 176-178 says | high (not executed) | Rasterizer.LineBorderInter, Rasterizer.ClipAsWritten, Rasterizer.ClipAsWrittenOverflows, Rasterizer.ClipAsWrittenAtMostFive | Rasterizer.LineBorderCross, Rasterizer.ClipNear, Rasterizer.ClipNearShape |
