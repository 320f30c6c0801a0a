/** The mesh of src/scene/mesh.c: per-vertex attribute arrays with a
    triangle index buffer, the copy into rasteriser vertices, and the fixed
    w × h plane. */
module Meshes {
  import opened Geom

  /** wg_mesh_t: nVertex entries in each attribute array and three indices
      per triangle. */
  class Mesh {
    var nVertex: nat
    var nTriangle: nat
    var vertex: array<Vec4>
    var normal: array<Vec4>
    var tc: array<Vec2>
    var vColor: array<Color>
    var triangle: array<u32>

    /** The arrays have the sizes the counts promise, and the positions and
        normals are separate arrays. */
    predicate Valid()
      reads this
    {
      && vertex != normal
      && vertex.Length == nVertex && normal.Length == nVertex
      && tc.Length == nVertex && vColor.Length == nVertex
      && triangle.Length == 3 * nTriangle
    }

    /** The struct and its five arrays as mesh_plane mallocs them. */
    constructor (nv: nat, nt: nat)
      ensures nVertex == nv && nTriangle == nt && Valid()
      ensures fresh(vertex) && fresh(normal) && fresh(tc) && fresh(vColor) && fresh(triangle)
    {
      nVertex, nTriangle := nv, nt;
      vertex, normal := new Vec4[nv], new Vec4[nv];
      tc, vColor := new Vec2[nv], new Color[nv];
      triangle := new u32[3 * nt];
    }
  }

  /** assemble_vertex: one vertex per mesh vertex, taking its position,
      normal, texture coordinate and colour from the mesh arrays. The count
      is read into a uint32_t, so a count of 2^32 or more wraps. The other
      vertex fields are left as malloc gives them, so nothing is promised
      about them. */
  method AssembleVertex(mesh: Mesh) returns (v: array<Vertex>)
    requires mesh.Valid()
    ensures fresh(v) && v.Length == mesh.nVertex % 0x1_0000_0000
    ensures forall i :: 0 <= i < v.Length ==>
      && v[i].vPos == mesh.vertex[i] && v[i].normal == mesh.normal[i]
      && v[i].tc == mesh.tc[i] && v[i].vColor == mesh.vColor[i]
  {
    var nv := mesh.nVertex % 0x1_0000_0000;
    v := new Vertex[nv];
    for i := 0 to nv
      invariant forall k :: 0 <= k < i ==>
        && v[k].vPos == mesh.vertex[k] && v[k].normal == mesh.normal[k]
        && v[k].tc == mesh.tc[k] && v[k].vColor == mesh.vColor[k]
    {
      v[i] := v[i].(vPos := mesh.vertex[i], normal := mesh.normal[i], tc := mesh.tc[i], vColor := mesh.vColor[i]);
    }
  }

  // ---------------------------------------------------------------------------
  // mesh_plane

  /** Corner (i, j) of the plane, vertex number 2i + j: x = (2j - 1)·w/2,
      y = (2i - 1)·h/2 in the z = 0 plane. */
  function PlanePosition(w: real, h: real, i: int, j: int): Vec4
  {
    Vec4((j * 2 - 1) as real * (w * 0.5), (i * 2 - 1) as real * (h * 0.5), 0.0, 1.0)
  }

  /** Every corner faces +z. */
  const PlaneNormal := Vec4(0.0, 0.0, 1.0, 0.0)

  /** The texture coordinate of corner (i, j) is (j, i). */
  function PlaneTc(i: int, j: int): Vec2
  {
    Vec2(j as real, i as real)
  }

  /** The colour of corner (i, j): (0.5 + 0.5i, 1 - 0.5j, 0.5). */
  function PlaneColor(i: int, j: int): Color
  {
    Color(0.5 + 0.5 * i as real, 1.0 - 0.5 * j as real, 0.5)
  }

  /** The index buffer of the plane: triangles (0, 3, 1) and (0, 2, 3). */
  const PlaneTriangles: seq<u32> := [0, 3, 1, 0, 2, 3]

  /** mesh_plane: four vertices filled row by row with the running counter
      p = 2i + j, and the two triangles of the index buffer. */
  method MeshPlane(w: real, h: real) returns (mesh: Mesh)
    ensures fresh(mesh) && mesh.Valid() && mesh.nVertex == 4 && mesh.nTriangle == 2
    ensures mesh.triangle[..] == PlaneTriangles
    ensures forall p :: 0 <= p < 4 ==>
      && mesh.vertex[p] == PlanePosition(w, h, p / 2, p % 2)
      && mesh.normal[p] == PlaneNormal
      && mesh.tc[p] == PlaneTc(p / 2, p % 2)
      && mesh.vColor[p] == PlaneColor(p / 2, p % 2)
  {
    mesh := new Mesh(4, 2);
    FillPlaneVertices(mesh, w, h);
    FillPlaneTriangles(mesh.triangle);
  }

  /** The nested loop of mesh_plane over rows i and columns j. */
  method FillPlaneVertices(mesh: Mesh, w: real, h: real)
    requires mesh.Valid() && mesh.nVertex == 4
    modifies mesh.vertex, mesh.normal, mesh.tc, mesh.vColor
    ensures forall p :: 0 <= p < 4 ==>
      && mesh.vertex[p] == PlanePosition(w, h, p / 2, p % 2)
      && mesh.normal[p] == PlaneNormal
      && mesh.tc[p] == PlaneTc(p / 2, p % 2)
      && mesh.vColor[p] == PlaneColor(p / 2, p % 2)
  {
    var p := 0;
    for i := 0 to 2
      invariant p == 2 * i
      invariant forall q :: 0 <= q < p ==>
        && mesh.vertex[q] == PlanePosition(w, h, q / 2, q % 2)
        && mesh.normal[q] == PlaneNormal
        && mesh.tc[q] == PlaneTc(q / 2, q % 2)
        && mesh.vColor[q] == PlaneColor(q / 2, q % 2)
    {
      for j := 0 to 2
        invariant p == 2 * i + j
        invariant forall q :: 0 <= q < p ==>
          && mesh.vertex[q] == PlanePosition(w, h, q / 2, q % 2)
          && mesh.normal[q] == PlaneNormal
          && mesh.tc[q] == PlaneTc(q / 2, q % 2)
          && mesh.vColor[q] == PlaneColor(q / 2, q % 2)
      {
        assert p / 2 == i && p % 2 == j;
        mesh.vertex[p] := PlanePosition(w, h, i, j);
        mesh.normal[p] := PlaneNormal;
        mesh.tc[p] := PlaneTc(i, j);
        mesh.vColor[p] := PlaneColor(i, j);
        p := p + 1;
      }
    }
  }

  /** The six stores through the moving index pointer tp. */
  method FillPlaneTriangles(t: array<u32>)
    requires t.Length == 6
    modifies t
    ensures t[..] == PlaneTriangles
  {
    t[0], t[1], t[2] := 0, 3, 1;
    t[3], t[4], t[5] := 0, 2, 3;
  }

  /** Twice the signed area of the screen triangle (a, b, c) in x and y. */
  function Orientation(a: Vec4, b: Vec4, c: Vec4): real
  {
    (b.x - a.x) * (c.y - a.y) - (b.y - a.y) * (c.x - a.x)
  }

  /** The plane's index buffer is well formed: every index names one of the
      four vertices, both triangles run along the diagonal 0 - 3, and
      together they use every vertex. */
  lemma PlaneTrianglesCover()
    ensures forall k :: 0 <= k < |PlaneTriangles| ==> PlaneTriangles[k] < 4
    ensures 0 in PlaneTriangles[0..3] && 3 in PlaneTriangles[0..3]
    ensures 0 in PlaneTriangles[3..6] && 3 in PlaneTriangles[3..6]
    ensures forall q: u32 :: q < 4 ==> q in PlaneTriangles
  {
    assert PlaneTriangles[0..3] == [0, 3, 1];
    assert PlaneTriangles[3..6] == [0, 2, 3];
    forall q: u32 | q < 4
      ensures q in PlaneTriangles
    {
      var k := if q == 0 then 0 else if q == 1 then 2 else if q == 2 then 4 else 1;
      assert PlaneTriangles[k] == q;
    }
  }

  /** The plane is a w × h rectangle centred on the origin: opposite corners
      mirror each other, the texture coordinate is the corner's position
      rescaled to [0, 1] × [0, 1], and the two triangles have the same
      winding, each covering half of the rectangle. */
  lemma PlaneGeometry(w: real, h: real, i: int, j: int)
    requires 0 <= i < 2 && 0 <= j < 2
    ensures PlanePosition(w, h, 1 - i, 1 - j).x == -PlanePosition(w, h, i, j).x
    ensures PlanePosition(w, h, 1 - i, 1 - j).y == -PlanePosition(w, h, i, j).y
    ensures PlanePosition(w, h, i, j).x == (2.0 * PlaneTc(i, j).x - 1.0) * (w * 0.5)
    ensures PlanePosition(w, h, i, j).y == (2.0 * PlaneTc(i, j).y - 1.0) * (h * 0.5)
    ensures var p0, p1, p2, p3 := PlanePosition(w, h, 0, 0), PlanePosition(w, h, 0, 1),
                                  PlanePosition(w, h, 1, 0), PlanePosition(w, h, 1, 1);
      Orientation(p0, p3, p1) == Orientation(p0, p2, p3) == -(w * h)
  {
  }

  /** Every corner colour has its channels in [0, 1]. */
  lemma PlaneColorsInUnit(i: int, j: int)
    requires 0 <= i < 2 && 0 <= j < 2
    ensures var c := PlaneColor(i, j);
      0.0 <= c.r <= 1.0 && 0.0 <= c.g <= 1.0 && 0.0 <= c.b <= 1.0
  {
  }
}
