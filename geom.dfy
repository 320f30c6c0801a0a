/** The linear-algebra and vertex kernel of the rasteriser: the value types of
    include/geom.h and the operations of src/geom.c. Every C `float` is a
    `real`; the proofs are about structure, not IEEE rounding. */
module Geom {

  /** uint8_t and uint32_t of <stdint.h>. */
  newtype u8 = x: int | 0 <= x < 0x100
  newtype u32 = x: int | 0 <= x < 0x1_0000_0000

  // ---------------------------------------------------------------------------
  // Scalar helpers

  /** `1.0f / x`. For x == 0 the C code yields an IEEE infinity; the model has
      no infinities and takes the value 0 there, so every caller that divides
      by a quantity that may vanish goes through this explicit branch. */
  function Recip(x: real): (r: real)
    ensures x != 0.0 ==> r * x == 1.0
    ensures x == 0.0 ==> r == 0.0
  {
    if x == 0.0 then 0.0 else 1.0 / x
  }

  /** `ceilf`, as a real ceiling. */
  function Ceil(x: real): (c: int)
    ensures c as real - 1.0 < x <= c as real
  {
    -((-x).Floor)
  }

  /** The C conversion of a float to an int, which truncates toward zero. */
  function Trunc(x: real): (t: int)
    ensures 0.0 <= x ==> 0 <= t && t as real <= x < t as real + 1.0
    ensures x < 0.0 ==> t <= 0 && t as real - 1.0 < x <= t as real
  {
    if x >= 0.0 then x.Floor else -((-x).Floor)
  }


  // Small facts of real arithmetic, stated once so the proofs below stay linear.

  lemma MulAssoc(p: real, a: real, b: real)
    ensures p * a * b == p * (a * b)
  {
  }

  /** k is a reciprocal of d, so scaling by k and then by d is the identity. */
  lemma UndoScale(p: real, k: real, d: real)
    requires k * d == 1.0
    ensures p * k * d == p
  {
    MulAssoc(p, k, d);
  }

  lemma MulDivCancel(e: real, s: real)
    requires s != 0.0
    ensures e * s / s == e
  {
  }

  /** e is x·d with x in [0, 1] and d >= 0, so e lies in [0, d]. */
  lemma MulBounds(x: real, d: real, e: real)
    requires 0.0 <= x <= 1.0 && 0.0 <= d && e == x * d
    ensures 0.0 <= e <= d
  {
    assert x * d <= 1.0 * d;
  }

  /** Euclidean division is determined by its remainder range. */
  lemma DivModUnique(x: int, w: int, q: int, r: int)
    requires w > 0 && 0 <= r < w && x == q * w + r
    ensures x / w == q && x % w == r
  {
    var Q, R := x / w, x % w;
    assert x == Q * w + R;
    assert (Q - q) * w == r - R;
    if Q > q {
      MulAtLeast(Q - q, w);
      assert false;
    } else if Q < q {
      MulAtLeast(q - Q, w);
      assert false;
    }
  }

  lemma MulAtLeast(n: int, w: int)
    requires n >= 1 && w > 0
    ensures n * w >= w
  {
    assert n * w == (n - 1) * w + w;
    assert (n - 1) * w >= 0;
  }

  /** The row-major offset of (x, y) in a w-wide grid of h rows is below w·h,
      and (x, y) can be read back from it. */
  lemma GridOffset(w: int, h: int, x: int, y: int)
    requires 0 <= x < w && 0 <= y < h
    ensures 0 <= w * y + x < w * h
    ensures (w * y + x) / w == y && (w * y + x) % w == x
  {
    assert w * y + x < w * h by {
      assert w * h - w * y == w * (h - y);
      MulAtLeast(h - y, w);
    }
    DivModUnique(w * y + x, w, y, x);
  }

  /** Every offset below w·h is the offset of one cell (k % w, k / w). */
  lemma GridCell(w: int, h: int, k: int)
    requires 0 < w && 0 <= k < w * h
    ensures 0 <= k % w < w && 0 <= k / w < h && w * (k / w) + k % w == k
  {
    var y := k / w;
    assert k == w * y + k % w;
    if y >= h {
      MulAtLeast(y - h + 1, w);
      assert false;
    }
  }

  // ---------------------------------------------------------------------------
  // wg_vec4f, wg_vec2f, wg_color_t

  /** wg_vec4f: the fields x, y, z, w. The C union also names them v[0..3]. */
  datatype Vec4 = Vec4(x: real, y: real, z: real, w: real)
  {
    /** The union view `v[i]`. */
    function At(i: nat): (c: real)
      requires i < 4
      ensures i == 0 ==> c == x
      ensures i == 1 ==> c == y
      ensures i == 2 ==> c == z
      ensures i == 3 ==> c == w
    {
      if i == 0 then x else if i == 1 then y else if i == 2 then z else w
    }
  }

  /** The vector whose union view is `v`. */
  function Vec4Of(v: seq<real>): (a: Vec4)
    requires |v| == 4
    ensures forall i :: 0 <= i < 4 ==> a.At(i) == v[i]
  {
    Vec4(v[0], v[1], v[2], v[3])
  }

  /** The union view of `a` as a sequence. */
  function Comps(a: Vec4): (v: seq<real>)
    ensures |v| == 4
  {
    [a.x, a.y, a.z, a.w]
  }

  /** The named fields and the array view of wg_vec4f are one piece of storage:
      reading a vector through either view and writing it back through the
      other gives the same vector (include/geom.h:6-11). */
  lemma UnionViewsAgree(a: Vec4, v: seq<real>)
    requires |v| == 4
    ensures Vec4Of(Comps(a)) == a
    ensures Comps(Vec4Of(v)) == v
    ensures forall i :: 0 <= i < 4 ==> Comps(a)[i] == a.At(i)
  {
    assert Comps(Vec4Of(v)) == [v[0], v[1], v[2], v[3]];
  }

  /** wg_vec2f, used as wg_txcoord_t. */
  datatype Vec2 = Vec2(x: real, y: real)

  /** wg_color_t. */
  datatype Color = Color(r: real, g: real, b: real)

  // ---------------------------------------------------------------------------
  // v4f_* operations (all of them set w to 1)

  function V4Add(a: Vec4, b: Vec4): (r: Vec4)
    ensures r.w == 1.0
  {
    Vec4(a.x + b.x, a.y + b.y, a.z + b.z, 1.0)
  }

  function V4Sub(a: Vec4, b: Vec4): (r: Vec4)
    ensures r.w == 1.0
  {
    Vec4(a.x - b.x, a.y - b.y, a.z - b.z, 1.0)
  }

  function V4Mul(a: Vec4, b: real): (r: Vec4)
    ensures r.w == 1.0
  {
    Vec4(a.x * b, a.y * b, a.z * b, 1.0)
  }

  /** v4f_div multiplies by `1.0f / b`. */
  function V4Div(a: Vec4, b: real): (r: Vec4)
    ensures r.w == 1.0
  {
    var inv := Recip(b);
    Vec4(a.x * inv, a.y * inv, a.z * inv, 1.0)
  }

  /** The dot product of the x, y, z parts; w takes no part. A vector's dot
      product with itself is its squared length: never negative, and zero
      only for the zero direction. */
  function V4Dot(a: Vec4, b: Vec4): (r: real)
    ensures a == b ==> r >= 0.0
    ensures a == b && r == 0.0 ==> a.x == 0.0 && a.y == 0.0 && a.z == 0.0
  {
    SumOfSquares(a.x, a.y, a.z);
    a.x * b.x + a.y * b.y + a.z * b.z
  }

  lemma SumOfSquares(x: real, y: real, z: real)
    ensures x * x + y * y + z * z >= 0.0
    ensures x * x + y * y + z * z == 0.0 ==> x == 0.0 && y == 0.0 && z == 0.0
  {
    Square(x);
    Square(y);
    Square(z);
  }

  lemma Square(x: real)
    ensures x * x >= 0.0
    ensures x * x == 0.0 ==> x == 0.0
  {
    if x != 0.0 {
      assert x * x / x == x;
    }
  }

  /** The cross product of the x, y, z parts, with w forced to 1. */
  function V4Cross(a: Vec4, b: Vec4): (r: Vec4)
    ensures r.w == 1.0
  {
    Vec4(a.y * b.z - a.z * b.y, a.z * b.x - a.x * b.z, a.x * b.y - a.y * b.x, 1.0)
  }

  /** The x, y, z part of `a` with w forced to 1, the shape every v4f_* result has. */
  function Direction(a: Vec4): Vec4
  {
    Vec4(a.x, a.y, a.z, 1.0)
  }

  /** Adding and then subtracting the same vector gives back the x, y, z part;
      dividing undoes multiplying by a non-zero factor (src/geom.c:6-19). */
  lemma V4Inverses(a: Vec4, b: Vec4, s: real)
    ensures V4Sub(V4Add(a, b), b) == Direction(a)
    ensures V4Add(V4Sub(a, b), b) == Direction(a)
    ensures s != 0.0 ==> V4Div(V4Mul(a, s), s) == Direction(a)
    ensures V4Sub(a, a) == Vec4(0.0, 0.0, 0.0, 1.0)
  {
    if s != 0.0 {
      var inv := Recip(s);
      assert a.x * s * inv == a.x * (s * inv);
      assert a.y * s * inv == a.y * (s * inv);
      assert a.z * s * inv == a.z * (s * inv);
    }
  }

  /** v4f_dot_prod ignores the w components and is symmetric (src/geom.c:23-25). */
  lemma V4DotIgnoresW(a: Vec4, b: Vec4, aw: real, bw: real)
    ensures V4Dot(a, b) == V4Dot(a.(w := aw), b.(w := bw))
    ensures V4Dot(a, b) == V4Dot(b, a)
  {
  }

  /** The cross product is orthogonal to both factors and anti-commutes
      (src/geom.c:27-33). */
  lemma V4CrossOrthogonal(a: Vec4, b: Vec4)
    ensures V4Dot(V4Cross(a, b), a) == 0.0
    ensures V4Dot(V4Cross(a, b), b) == 0.0
    ensures V4Cross(b, a) == V4Mul(V4Cross(a, b), -1.0)
  {
    var c := V4Cross(a, b);
    calc {
      V4Dot(c, a);
      (a.y * b.z - a.z * b.y) * a.x + (a.z * b.x - a.x * b.z) * a.y + (a.x * b.y - a.y * b.x) * a.z;
      a.x * a.y * b.z - a.x * a.z * b.y + a.y * a.z * b.x - a.x * a.y * b.z + a.x * a.z * b.y - a.y * a.z * b.x;
      0.0;
    }
    calc {
      V4Dot(c, b);
      (a.y * b.z - a.z * b.y) * b.x + (a.z * b.x - a.x * b.z) * b.y + (a.x * b.y - a.y * b.x) * b.z;
      a.y * b.x * b.z - a.z * b.x * b.y + a.z * b.x * b.y - a.x * b.y * b.z + a.x * b.y * b.z - a.y * b.x * b.z;
      0.0;
    }
  }

  // ---------------------------------------------------------------------------
  // lerp

  /** lerp: (1 - x)·a + x·b. */
  function Lerp(a: real, b: real, x: real): (r: real)
    ensures x == 0.0 ==> r == a
    ensures x == 1.0 ==> r == b
    ensures r - a == x * (b - a)
  {
    (1.0 - x) * a + x * b
  }

  /** lerp_vec4f interpolates all four components, w included. */
  function LerpVec4(a: Vec4, b: Vec4, x: real): (r: Vec4)
    ensures x == 0.0 ==> r == a
    ensures x == 1.0 ==> r == b
    ensures r.w == Lerp(a.w, b.w, x)
  {
    Vec4(Lerp(a.x, b.x, x), Lerp(a.y, b.y, x), Lerp(a.z, b.z, x), Lerp(a.w, b.w, x))
  }

  /** A ratio in [0, 1] keeps the interpolated value between the end points. */
  lemma LerpBetween(a: real, b: real, x: real)
    requires 0.0 <= x <= 1.0
    ensures a <= b ==> a <= Lerp(a, b, x) <= b
    ensures b <= a ==> b <= Lerp(a, b, x) <= a
  {
    if a <= b {
      MulBounds(x, b - a, Lerp(a, b, x) - a);
    } else {
      MulBounds(x, a - b, a - Lerp(a, b, x));
    }
  }

  // ---------------------------------------------------------------------------
  // wg_mat44f: 16 floats, row-major; m[i][j], v[4i+j] and _(i+1)(j+1) name one entry

  type Mat44 = s: seq<real> | |s| == 16 witness seq(16, _ => 0.0)

  /** The view `m[i][j]`, which is `v[4i + j]` and the field `_{i+1}{j+1}`;
      so `_11` is v[0], `_23` is v[6] and `_44` is v[15]. */
  function At(m: Mat44, i: nat, j: nat): real
    requires i < 4 && j < 4
  {
    m[4 * i + j]
  }

  /** The row-major storage places entry (i, j) at v[4i + j]: the fields the
      test program compares (_11, _23, _44) are v[0], v[6] and v[15], and
      every storage index is exactly one entry (include/geom.h:14-25). */
  lemma RowMajorLayout(m: Mat44, k: nat)
    requires k < 16
    ensures At(m, 0, 0) == m[0] && At(m, 1, 2) == m[6] && At(m, 3, 3) == m[15]
    ensures k / 4 < 4 && m[k] == At(m, k / 4, k % 4)
  {
    assert 4 * (k / 4) + k % 4 == k;
  }

  /** Entry (i, j) of the product a·b. */
  function Entry(a: Mat44, b: Mat44, i: nat, j: nat): real
    requires i < 4 && j < 4
  {
    At(a, i, 0) * At(b, 0, j) + At(a, i, 1) * At(b, 1, j)
      + At(a, i, 2) * At(b, 2, j) + At(a, i, 3) * At(b, 3, j)
  }

  /** The first n terms of Entry(a, b, i, j), as matmul accumulates them. */
  function PartialEntry(a: Mat44, b: Mat44, i: nat, j: nat, n: nat): real
    requires i < 4 && j < 4 && n <= 4
  {
    if n == 0 then 0.0 else PartialEntry(a, b, i, j, n - 1) + At(a, i, n - 1) * At(b, n - 1, j)
  }

  lemma PartialEntryFull(a: Mat44, b: Mat44, i: nat, j: nat)
    requires i < 4 && j < 4
    ensures PartialEntry(a, b, i, j, 4) == Entry(a, b, i, j)
  {
    assert PartialEntry(a, b, i, j, 1) == At(a, i, 0) * At(b, 0, j);
    assert PartialEntry(a, b, i, j, 2) == PartialEntry(a, b, i, j, 1) + At(a, i, 1) * At(b, 1, j);
  }

  /** The matrix product a·b, entry by entry. */
  function Mul(a: Mat44, b: Mat44): Mat44
  {
    [Entry(a, b, 0, 0), Entry(a, b, 0, 1), Entry(a, b, 0, 2), Entry(a, b, 0, 3),
     Entry(a, b, 1, 0), Entry(a, b, 1, 1), Entry(a, b, 1, 2), Entry(a, b, 1, 3),
     Entry(a, b, 2, 0), Entry(a, b, 2, 1), Entry(a, b, 2, 2), Entry(a, b, 2, 3),
     Entry(a, b, 3, 0), Entry(a, b, 3, 1), Entry(a, b, 3, 2), Entry(a, b, 3, 3)]
  }

  lemma MulAt(a: Mat44, b: Mat44, i: nat, j: nat)
    requires i < 4 && j < 4
    ensures At(Mul(a, b), i, j) == Entry(a, b, i, j)
  {
  }

  /** matmul computes into a temporary and only then stores into y, so the
      product is right even when y is a or b. */
  method MatMul(a: array<real>, b: array<real>, y: array<real>)
    requires a.Length == 16 && b.Length == 16 && y.Length == 16
    modifies y
    ensures y[..] == Mul(old(a[..]), old(b[..]))
  {
    ghost var A: Mat44 := a[..];
    ghost var B: Mat44 := b[..];
    var tmp := new real[4, 4];
    FillProduct(a, b, tmp);
    StoreMatrix(tmp, y);
    forall r, c | 0 <= r < 4 && 0 <= c < 4
      ensures At(y[..], r, c) == At(Mul(A, B), r, c)
    {
      MulAt(A, B, r, c);
    }
    FromEntries(y[..], Mul(A, B));
  }

  /** The accumulation loops of matmul: tmp[i][j] := entry (i, j) of a·b. */
  method FillProduct(a: array<real>, b: array<real>, tmp: array2<real>)
    requires a.Length == 16 && b.Length == 16 && tmp.Length0 == 4 && tmp.Length1 == 4
    modifies tmp
    ensures forall r, c :: 0 <= r < 4 && 0 <= c < 4 ==> tmp[r, c] == Entry(a[..], b[..], r, c)
  {
    for i := 0 to 4
      invariant forall r, c :: 0 <= r < i && 0 <= c < 4 ==> tmp[r, c] == Entry(a[..], b[..], r, c)
    {
      for j := 0 to 4
        invariant forall r, c :: 0 <= r < i && 0 <= c < 4 ==> tmp[r, c] == Entry(a[..], b[..], r, c)
        invariant forall c :: 0 <= c < j ==> tmp[i, c] == Entry(a[..], b[..], i, c)
      {
        tmp[i, j] := AccumulateEntry(a, b, i, j);
      }
    }
  }

  /** The copy loop of matmul: y[i][j] := tmp[i][j]. */
  method StoreMatrix(tmp: array2<real>, y: array<real>)
    requires tmp.Length0 == 4 && tmp.Length1 == 4 && y.Length == 16
    modifies y
    ensures forall r, c :: 0 <= r < 4 && 0 <= c < 4 ==> At(y[..], r, c) == tmp[r, c]
  {
    for i := 0 to 4
      invariant forall r, c :: 0 <= r < i && 0 <= c < 4 ==> At(y[..], r, c) == tmp[r, c]
    {
      for j := 0 to 4
        invariant forall r, c :: 0 <= r < i && 0 <= c < 4 ==> At(y[..], r, c) == tmp[r, c]
        invariant forall c :: 0 <= c < j ==> At(y[..], i, c) == tmp[i, c]
      {
        y[4 * i + j] := tmp[i, j];
      }
    }
  }

  /** The inner loop of matmul: tmp[i][j] accumulates a[i][k]·b[k][j] for
      k = 0..3. */
  method AccumulateEntry(a: array<real>, b: array<real>, i: nat, j: nat) returns (s: real)
    requires a.Length == 16 && b.Length == 16 && i < 4 && j < 4
    ensures s == Entry(a[..], b[..], i, j)
  {
    s := 0.0;
    for k := 0 to 4
      invariant s == PartialEntry(a[..], b[..], i, j, k)
    {
      s := s + a[4 * i + k] * b[4 * k + j];
    }
    PartialEntryFull(a[..], b[..], i, j);
  }

  /** A 16-entry matrix that agrees with m at every (row, column) is m. */
  lemma FromEntries(y: Mat44, m: Mat44)
    requires forall r, c :: 0 <= r < 4 && 0 <= c < 4 ==> At(y, r, c) == At(m, r, c)
    ensures y == m
  {
    forall k | 0 <= k < 16
      ensures y[k] == m[k]
    {
      var r, c := k / 4, k % 4;
      assert k == 4 * r + c;
      assert At(y, r, c) == At(m, r, c);
    }
  }

  /** Row i of m applied to b. */
  function Row(m: Mat44, i: nat, b: Vec4): real
    requires i < 4
  {
    At(m, i, 0) * b.x + At(m, i, 1) * b.y + At(m, i, 2) * b.z + At(m, i, 3) * b.w
  }

  /** The first n terms of Row(m, i, b), as matvecmul4 accumulates them. */
  function PartialRow(m: Mat44, i: nat, b: Vec4, n: nat): real
    requires i < 4 && n <= 4
  {
    if n == 0 then 0.0 else PartialRow(m, i, b, n - 1) + At(m, i, n - 1) * b.At(n - 1)
  }

  lemma PartialRowFull(m: Mat44, i: nat, b: Vec4)
    requires i < 4
    ensures PartialRow(m, i, b, 4) == Row(m, i, b)
  {
    assert PartialRow(m, i, b, 1) == At(m, i, 0) * b.x;
    assert PartialRow(m, i, b, 2) == PartialRow(m, i, b, 1) + At(m, i, 1) * b.y;
  }

  /** The matrix-vector product m·b. */
  function MatVec(m: Mat44, b: Vec4): Vec4
  {
    Vec4(Row(m, 0, b), Row(m, 1, b), Row(m, 2, b), Row(m, 3, b))
  }

  /** matvecmul4: the product is accumulated into a temporary; the result is a
      value, so storing it over the input vector (as project_vertex does with
      `&v->vPos`) is safe. */
  method MatVecMul4(m: array<real>, b: Vec4) returns (y: Vec4)
    requires m.Length == 16
    ensures y == MatVec(m[..], b)
  {
    ghost var M: Mat44 := m[..];
    var tmp := new real[4];
    for i := 0 to 4
      modifies tmp
      invariant forall r :: 0 <= r < i ==> tmp[r] == Row(M, r, b)
    {
      tmp[i] := 0.0;
      for j := 0 to 4
        modifies tmp
        invariant forall r :: 0 <= r < i ==> tmp[r] == Row(M, r, b)
        invariant tmp[i] == PartialRow(M, i, b, j)
      {
        tmp[i] := tmp[i] + m[4 * i + j] * b.At(j);
      }
      PartialRowFull(M, i, b);
    }
    y := Vec4Of(tmp[..]);
  }

  // ---------------------------------------------------------------------------
  // get_identical_mat, get_translation_mat

  /** The identity matrix. */
  function Identity(): Mat44
  {
    [1.0, 0.0, 0.0, 0.0,
     0.0, 1.0, 0.0, 0.0,
     0.0, 0.0, 1.0, 0.0,
     0.0, 0.0, 0.0, 1.0]
  }

  /** The translation by (dx, dy, dz): the identity with `_14`, `_24`, `_34` set. */
  function Translation(dx: real, dy: real, dz: real): Mat44
  {
    [1.0, 0.0, 0.0, dx,
     0.0, 1.0, 0.0, dy,
     0.0, 0.0, 1.0, dz,
     0.0, 0.0, 0.0, 1.0]
  }

  /** get_identical_mat: clear all 16 entries, then set the diagonal. */
  method GetIdenticalMat(m: array<real>)
    requires m.Length == 16
    modifies m
    ensures m[..] == Identity()
    ensures forall i, j :: 0 <= i < 4 && 0 <= j < 4 ==> At(m[..], i, j) == if i == j then 1.0 else 0.0
  {
    for i := 0 to 16
      invariant forall k :: 0 <= k < i ==> m[k] == 0.0
    {
      m[i] := 0.0;
    }
    m[0], m[5], m[10], m[15] := 1.0, 1.0, 1.0, 1.0;
    assert m[..] == Identity();
  }

  /** get_translation_mat: clear all 16 entries, set the diagonal and then
      `_14`, `_24`, `_34` (v[3], v[7], v[11]). */
  method GetTranslationMat(m: array<real>, dx: real, dy: real, dz: real)
    requires m.Length == 16
    modifies m
    ensures m[..] == Translation(dx, dy, dz)
  {
    for i := 0 to 16
      invariant forall k :: 0 <= k < i ==> m[k] == 0.0
    {
      m[i] := 0.0;
    }
    m[0], m[5], m[10], m[15] := 1.0, 1.0, 1.0, 1.0;
    m[3], m[7], m[11] := dx, dy, dz;
    assert m[..] == Translation(dx, dy, dz);
  }

  /** Multiplying by the identity changes nothing (src/geom.c:123-126). */
  lemma IdentityNeutral(a: Mat44, v: Vec4)
    ensures MatVec(Identity(), v) == v
    ensures Mul(Identity(), a) == a
    ensures Mul(a, Identity()) == a
  {
    var id := Identity();
    assert Row(id, 0, v) == v.x && Row(id, 1, v) == v.y && Row(id, 2, v) == v.z && Row(id, 3, v) == v.w;
    forall r, c | 0 <= r < 4 && 0 <= c < 4
      ensures At(Mul(id, a), r, c) == At(a, r, c)
    {
      MulAt(id, a, r, c);
      IdentityLeftEntry(a, r, c);
    }
    FromEntries(Mul(id, a), a);
    forall r, c | 0 <= r < 4 && 0 <= c < 4
      ensures At(Mul(a, id), r, c) == At(a, r, c)
    {
      MulAt(a, id, r, c);
      IdentityRightEntry(a, r, c);
    }
    FromEntries(Mul(a, id), a);
  }

  lemma IdentityLeftEntry(a: Mat44, i: nat, j: nat)
    requires i < 4 && j < 4
    ensures Entry(Identity(), a, i, j) == At(a, i, j)
  {
    var id := Identity();
    if i == 0 {
      assert At(id, 0, 0) == 1.0 && At(id, 0, 1) == 0.0 && At(id, 0, 2) == 0.0 && At(id, 0, 3) == 0.0;
    } else if i == 1 {
      assert At(id, 1, 0) == 0.0 && At(id, 1, 1) == 1.0 && At(id, 1, 2) == 0.0 && At(id, 1, 3) == 0.0;
    } else if i == 2 {
      assert At(id, 2, 0) == 0.0 && At(id, 2, 1) == 0.0 && At(id, 2, 2) == 1.0 && At(id, 2, 3) == 0.0;
    } else {
      assert At(id, 3, 0) == 0.0 && At(id, 3, 1) == 0.0 && At(id, 3, 2) == 0.0 && At(id, 3, 3) == 1.0;
    }
  }

  lemma IdentityRightEntry(a: Mat44, i: nat, j: nat)
    requires i < 4 && j < 4
    ensures Entry(a, Identity(), i, j) == At(a, i, j)
  {
    var id := Identity();
    if j == 0 {
      assert At(id, 0, 0) == 1.0 && At(id, 1, 0) == 0.0 && At(id, 2, 0) == 0.0 && At(id, 3, 0) == 0.0;
    } else if j == 1 {
      assert At(id, 0, 1) == 0.0 && At(id, 1, 1) == 1.0 && At(id, 2, 1) == 0.0 && At(id, 3, 1) == 0.0;
    } else if j == 2 {
      assert At(id, 0, 2) == 0.0 && At(id, 1, 2) == 0.0 && At(id, 2, 2) == 1.0 && At(id, 3, 2) == 0.0;
    } else {
      assert At(id, 0, 3) == 0.0 && At(id, 1, 3) == 0.0 && At(id, 2, 3) == 0.0 && At(id, 3, 3) == 1.0;
    }
  }

  /** The translation matrix moves a point (w = 1) by (dx, dy, dz) and leaves
      a direction (w = 0) alone; two translations compose by adding their
      offsets (src/geom.c:95-99). */
  lemma TranslationMoves(dx: real, dy: real, dz: real, ex: real, ey: real, ez: real, p: Vec4)
    ensures p.w == 1.0 ==> MatVec(Translation(dx, dy, dz), p) == Vec4(p.x + dx, p.y + dy, p.z + dz, 1.0)
    ensures p.w == 0.0 ==> MatVec(Translation(dx, dy, dz), p) == p
    ensures Mul(Translation(dx, dy, dz), Translation(ex, ey, ez)) == Translation(dx + ex, dy + ey, dz + ez)
  {
    var t := Translation(dx, dy, dz);
    assert Row(t, 0, p) == p.x + dx * p.w;
    assert Row(t, 1, p) == p.y + dy * p.w;
    assert Row(t, 2, p) == p.z + dz * p.w;
    assert Row(t, 3, p) == p.w;
  }

  // ---------------------------------------------------------------------------
  // wg_transform_t

  /** wg_transform_t: pointers to the world, camera and projection matrices, to
      the two combined matrices, and the viewport size used by
      transform_homogenous. A pointer may be NULL. */
  class Transform {
    var world: array?<real>
    var camera: array?<real>
    var projection: array?<real>
    var transform: array?<real>
    var transformP: array?<real>
    var w: real
    var h: real

    /** All five matrices are present. */
    ghost predicate Ready()
      reads this
    {
      && world != null && camera != null && projection != null
      && transform != null && transformP != null
      && world.Length == 16 && camera.Length == 16 && projection.Length == 16
      && transform.Length == 16 && transformP.Length == 16
    }

    /** The state try_init_render leaves: every matrix pointer NULL. The
        viewport size w, h is not set and keeps whatever malloc left, so
        the constructor promises nothing about it. */
    constructor ()
      ensures world == null && camera == null && projection == null
      ensures transform == null && transformP == null
    {
      world, camera, projection, transform, transformP := null, null, null, null, null;
    }

    /** What set_up_render does to the render's transform: allocate fresh
        storage for the two combined matrices (their contents are whatever
        malloc left) and record the viewport size. The world, camera and
        projection pointers stay as they were. */
    method SetUp(sw: real, sh: real)
      modifies this
      ensures transform != null && transformP != null
      ensures fresh(transform) && fresh(transformP)
      ensures transform.Length == 16 && transformP.Length == 16
      ensures w == sw && h == sh
      ensures world == old(world) && camera == old(camera) && projection == old(projection)
    {
      transform, transformP := new real[16], new real[16];
      w, h := sw, sh;
    }

    /** transform_update: transform := camera·world, then
        transform_p := projection·transform. Both products go through matmul,
        so they are right whichever of the pointers alias each other. */
    method Update()
      requires Ready()
      modifies transform, transformP
      ensures var view := Mul(old(camera[..]), old(world[..]));
        && transformP[..] == Mul(if projection == transform then view else old(projection[..]), view)
        && (transform != transformP ==> transform[..] == view)
    {
      MatMul(camera, world, transform);
      MatMul(projection, transform, transformP);
    }

    /** transform_apply: y := transform·x; x is a value and stays unchanged. */
    method Apply(x: Vec4) returns (y: Vec4)
      requires transform != null && transform.Length == 16
      ensures y == MatVec(transform[..], x)
    {
      y := MatVecMul4(transform, x);
    }
  }

  // ---------------------------------------------------------------------------
  // wg_vertex_t, wg_gbuff_t

  /** wg_vertex_t. vPosH is the homogeneous (clip-space, later screen-space)
      position; vPos, normal, tc and vColor are the interpolated attributes;
      rhw is 1/w once vertex_init_rhw has run. */
  datatype Vertex = Vertex(vPosH: Vec4, vPos: Vec4, normal: Vec4, tc: Vec2, vColor: Color, rhw: real)

  /** wg_gbuff_t: one per-pixel attribute cell. */
  datatype GBuff = GBuff(vPosH: Vec4, vPos: Vec4, normal: Vec4, tc: Vec2, vColor: Color,
                         diffuseColor: Color, specularColorAdder: Color, color: Color)

  const Zero4 := Vec4(0.0, 0.0, 0.0, 0.0)
  const Black := Color(0.0, 0.0, 0.0)
  const ZeroVertex := Vertex(Zero4, Zero4, Zero4, Vec2(0.0, 0.0), Black, 0.0)
  const ZeroCell := GBuff(Zero4, Zero4, Zero4, Vec2(0.0, 0.0), Black, Black, Black, Black)

  /** transform_homogenous: divide by w (keeping 1/w in w), then map x and y to
      the sw × sh viewport, y pointing down. Only vPosH changes. */
  function TransformHomogenous(sw: real, sh: real, v: Vertex): (r: Vertex)
    ensures r == v.(vPosH := r.vPosH)
    ensures v.vPosH.w != 0.0 ==>
      && r.vPosH.w == 1.0 / v.vPosH.w
      && r.vPosH.z == v.vPosH.z / v.vPosH.w
      && r.vPosH.x == (v.vPosH.x / v.vPosH.w * 0.5 + 0.5) * sw
      && r.vPosH.y == (0.5 - v.vPosH.y / v.vPosH.w * 0.5) * sh
  {
    var p := v.vPosH;
    var rhz := Recip(p.w);
    var x, y, z := p.x * rhz, p.y * rhz, p.z * rhz;
    v.(vPosH := Vec4((x * 0.5 + 0.5) * sw, (0.5 - y * 0.5) * sh, z, rhz))
  }

  /** The inverse of transform_homogenous's screen mapping: from a screen
      position (with 1/w in w) back to the clip-space position. */
  function ScreenToClip(sw: real, sh: real, p: Vec4): Vec4
    requires sw != 0.0 && sh != 0.0 && p.w != 0.0
  {
    var w := 1.0 / p.w;
    Vec4((p.x / sw - 0.5) * 2.0 * w, (0.5 - p.y / sh) * 2.0 * w, p.z * w, w)
  }

  /** transform_homogenous loses nothing when w and the viewport are non-zero:
      the clip-space position can be recovered from its result. */
  lemma HomogenousRoundTrip(sw: real, sh: real, v: Vertex)
    requires sw != 0.0 && sh != 0.0 && v.vPosH.w != 0.0
    ensures TransformHomogenous(sw, sh, v).vPosH.w != 0.0
    ensures ScreenToClip(sw, sh, TransformHomogenous(sw, sh, v).vPosH) == v.vPosH
  {
    var p := v.vPosH;
    var q := TransformHomogenous(sw, sh, v).vPosH;
    var rhz := q.w;
    assert rhz == Recip(p.w) && rhz * p.w == 1.0;
    var d := 1.0 / rhz;
    assert d == p.w;
    AxisRoundTrip(p.x, rhz, d, sw, q.x);
    AxisRoundTripFlipped(p.y, rhz, d, sh, q.y);
    UndoScale(p.z, rhz, d);
  }

  /** Mapping c·k from [-1, 1] to [0, s] and back, then undoing the scale k
      by its reciprocal d, gives c. */
  lemma AxisRoundTrip(c: real, k: real, d: real, s: real, e: real)
    requires k * d == 1.0 && s != 0.0 && e == (c * k * 0.5 + 0.5) * s
    ensures (e / s - 0.5) * 2.0 * d == c
  {
    MulDivCancel(c * k * 0.5 + 0.5, s);
    UndoScale(c, k, d);
  }

  /** The same for the y axis, which the viewport map turns upside down. */
  lemma AxisRoundTripFlipped(c: real, k: real, d: real, s: real, e: real)
    requires k * d == 1.0 && s != 0.0 && e == (0.5 - c * k * 0.5) * s
    ensures (0.5 - e / s) * 2.0 * d == c
  {
    MulDivCancel(0.5 - c * k * 0.5, s);
    UndoScale(c, k, d);
  }

  /** A point inside the view volume on x and y (|x| <= w, |y| <= w, w > 0)
      lands inside the viewport [0, sw] × [0, sh]. */
  lemma HomogenousInViewport(sw: real, sh: real, v: Vertex)
    requires sw >= 0.0 && sh >= 0.0 && v.vPosH.w > 0.0
    requires -v.vPosH.w <= v.vPosH.x <= v.vPosH.w && -v.vPosH.w <= v.vPosH.y <= v.vPosH.w
    ensures 0.0 <= TransformHomogenous(sw, sh, v).vPosH.x <= sw
    ensures 0.0 <= TransformHomogenous(sw, sh, v).vPosH.y <= sh
  {
    var p := v.vPosH;
    var q := TransformHomogenous(sw, sh, v).vPosH;
    var rhz := Recip(p.w);
    assert rhz * p.w == 1.0;
    AxisInViewport(p.x, p.w, rhz, sw, q.x);
    AxisInViewportFlipped(p.y, p.w, rhz, sh, q.y);
  }

  /** |c| <= w with w > 0 puts c/w in [-1, 1], which the viewport map sends
      into [0, s]. */
  lemma AxisInViewport(c: real, w: real, k: real, s: real, e: real)
    requires w > 0.0 && k * w == 1.0 && -w <= c <= w && s >= 0.0
    requires e == (c * k * 0.5 + 0.5) * s
    ensures 0.0 <= e <= s
  {
    ScaleIntoUnit(c, w, k);
    MulBounds(c * k * 0.5 + 0.5, s, e);
  }

  /** The same for the upside-down y axis. */
  lemma AxisInViewportFlipped(c: real, w: real, k: real, s: real, e: real)
    requires w > 0.0 && k * w == 1.0 && -w <= c <= w && s >= 0.0
    requires e == (0.5 - c * k * 0.5) * s
    ensures 0.0 <= e <= s
  {
    ScaleIntoUnit(c, w, k);
    MulBounds(0.5 - c * k * 0.5, s, e);
  }

  /** |c| <= w with w > 0 puts c/w in [-1, 1]. */
  lemma ScaleIntoUnit(c: real, w: real, k: real)
    requires w > 0.0 && k * w == 1.0 && -w <= c <= w
    ensures -1.0 <= c * k <= 1.0
  {
    assert k > 0.0;
    assert c * k <= w * k;
    assert (-w) * k <= c * k;
  }

  // ---------------------------------------------------------------------------
  // Vertex attribute arithmetic

  /** vertex_init_rhw: rhw := vPosH.w (the 1/w stored by
      transform_homogenous), and the x, y, z of vPos and normal, the texture
      coordinate and the colour are multiplied by it. vPosH and the w of vPos
      and normal stay as they are. */
  function VertexInitRhw(v: Vertex): (r: Vertex)
    ensures r.rhw == v.vPosH.w && r.vPosH == v.vPosH
    ensures r.vPos.w == v.vPos.w && r.normal.w == v.normal.w
  {
    var k := v.vPosH.w;
    Vertex(v.vPosH,
           Vec4(v.vPos.x * k, v.vPos.y * k, v.vPos.z * k, v.vPos.w),
           Vec4(v.normal.x * k, v.normal.y * k, v.normal.z * k, v.normal.w),
           Vec2(v.tc.x * k, v.tc.y * k),
           Color(v.vColor.r * k, v.vColor.g * k, v.vColor.b * k),
           k)
  }

  /** Perspective-correct recovery: multiplying an attribute pre-scaled by
      vertex_init_rhw by 1/rhw (as draw_scanline stores it) gives the
      attribute back, whenever rhw is not zero. */
  lemma InitRhwRecovers(v: Vertex)
    requires v.vPosH.w != 0.0
    ensures var r := VertexInitRhw(v); var inv := Recip(r.rhw);
      && Vec4(r.vPos.x * inv, r.vPos.y * inv, r.vPos.z * inv, r.vPos.w) == v.vPos
      && V4Mul(r.normal, inv) == Direction(v.normal)
      && Vec2(r.tc.x * inv, r.tc.y * inv) == v.tc
      && Color(r.vColor.r * inv, r.vColor.g * inv, r.vColor.b * inv) == v.vColor
  {
    var k := v.vPosH.w;
    var inv := Recip(k);
    assert inv * k == 1.0;
    assert k * inv == 1.0;
    UndoScale(v.vPos.x, k, inv);
    UndoScale(v.vPos.y, k, inv);
    UndoScale(v.vPos.z, k, inv);
    UndoScale(v.normal.x, k, inv);
    UndoScale(v.normal.y, k, inv);
    UndoScale(v.normal.z, k, inv);
    UndoScale(v.tc.x, k, inv);
    UndoScale(v.tc.y, k, inv);
    UndoScale(v.vColor.r, k, inv);
    UndoScale(v.vColor.g, k, inv);
    UndoScale(v.vColor.b, k, inv);
  }

  /** vertex_add: y += x on all four components of vPosH, on the x, y, z of
      vPos and normal (their w is left alone), and on tc, vColor and rhw. */
  function VertexAdd(y: Vertex, x: Vertex): (r: Vertex)
    ensures r.vPos.w == y.vPos.w && r.normal.w == y.normal.w
  {
    Vertex(Vec4(y.vPosH.x + x.vPosH.x, y.vPosH.y + x.vPosH.y, y.vPosH.z + x.vPosH.z, y.vPosH.w + x.vPosH.w),
           Vec4(y.vPos.x + x.vPos.x, y.vPos.y + x.vPos.y, y.vPos.z + x.vPos.z, y.vPos.w),
           Vec4(y.normal.x + x.normal.x, y.normal.y + x.normal.y, y.normal.z + x.normal.z, y.normal.w),
           Vec2(y.tc.x + x.tc.x, y.tc.y + x.tc.y),
           Color(y.vColor.r + x.vColor.r, y.vColor.g + x.vColor.g, y.vColor.b + x.vColor.b),
           y.rhw + x.rhw)
  }

  /** vertex_sub: y -= x on the same fields as vertex_add. */
  function VertexSub(y: Vertex, x: Vertex): (r: Vertex)
    ensures r.vPos.w == y.vPos.w && r.normal.w == y.normal.w
  {
    Vertex(Vec4(y.vPosH.x - x.vPosH.x, y.vPosH.y - x.vPosH.y, y.vPosH.z - x.vPosH.z, y.vPosH.w - x.vPosH.w),
           Vec4(y.vPos.x - x.vPos.x, y.vPos.y - x.vPos.y, y.vPos.z - x.vPos.z, y.vPos.w),
           Vec4(y.normal.x - x.normal.x, y.normal.y - x.normal.y, y.normal.z - x.normal.z, y.normal.w),
           Vec2(y.tc.x - x.tc.x, y.tc.y - x.tc.y),
           Color(y.vColor.r - x.vColor.r, y.vColor.g - x.vColor.g, y.vColor.b - x.vColor.b),
           y.rhw - x.rhw)
  }

  /** All four components of p times k (the vPosH loop of vertex_scale). */
  function Scale4(p: Vec4, k: real): Vec4
  {
    Vec4(p.x * k, p.y * k, p.z * k, p.w * k)
  }

  /** x, y, z of p times k, w kept (the 3-component loops of vertex_scale). */
  function ScaleXyz(p: Vec4, k: real): Vec4
  {
    Vec4(p.x * k, p.y * k, p.z * k, p.w)
  }

  function ScaleTc(p: Vec2, k: real): Vec2
  {
    Vec2(p.x * k, p.y * k)
  }

  function ScaleColor(c: Color, k: real): Color
  {
    Color(c.r * k, c.g * k, c.b * k)
  }

  /** vertex_scale: y *= x on the same fields as vertex_add. */
  function VertexScale(y: Vertex, x: real): (r: Vertex)
    ensures r.vPos.w == y.vPos.w && r.normal.w == y.normal.w
  {
    Vertex(Scale4(y.vPosH, x), ScaleXyz(y.vPos, x), ScaleXyz(y.normal, x),
           ScaleTc(y.tc, x), ScaleColor(y.vColor, x), y.rhw * x)
  }

  /** vertex_add and vertex_sub undo each other (include/geom.h:108-112). */
  lemma VertexAddSubInverse(y: Vertex, x: Vertex)
    ensures VertexSub(VertexAdd(y, x), x) == y
    ensures VertexAdd(VertexSub(y, x), x) == y
  {
  }

  /** Two scalings compose into one; scaling by 1 changes nothing. */
  lemma VertexScaleCompose(y: Vertex, a: real, b: real)
    ensures VertexScale(VertexScale(y, a), b) == VertexScale(y, a * b)
    ensures VertexScale(y, 1.0) == y
  {
    Scale4Twice(y.vPosH, a, b);
    ScaleXyzTwice(y.vPos, a, b);
    ScaleXyzTwice(y.normal, a, b);
    ScaleTcTwice(y.tc, a, b);
    ScaleColorTwice(y.vColor, a, b);
    MulAssoc(y.rhw, a, b);
    var m := VertexScale(y, a);
    var s2, s1 := VertexScale(m, b), VertexScale(y, a * b);
    assert m.rhw == y.rhw * a && s2.rhw == m.rhw * b;
    assert s2.vPosH == s1.vPosH && s2.vPos == s1.vPos && s2.normal == s1.normal;
    assert s2.tc == s1.tc && s2.vColor == s1.vColor && s2.rhw == s1.rhw;
  }

  lemma Scale4Twice(p: Vec4, a: real, b: real)
    ensures Scale4(Scale4(p, a), b) == Scale4(p, a * b)
  {
  }

  lemma ScaleXyzTwice(p: Vec4, a: real, b: real)
    ensures ScaleXyz(ScaleXyz(p, a), b) == ScaleXyz(p, a * b)
  {
  }

  lemma ScaleTcTwice(p: Vec2, a: real, b: real)
    ensures ScaleTc(ScaleTc(p, a), b) == ScaleTc(p, a * b)
  {
  }

  lemma ScaleColorTwice(c: Color, a: real, b: real)
    ensures ScaleColor(ScaleColor(c, a), b) == ScaleColor(c, a * b)
  {
  }

  /** The span denominator of vertex_step: the x distance plus 1e-6. */
  function StepSpan(l: Vertex, r: Vertex): real
  {
    r.vPosH.x - l.vPosH.x + 0.000001
  }

  /** vertex_step: (r - l) / (r.x - l.x + 1e-6), the per-pixel increment
      (starting from a copy of r, so the w of vPos and normal are r's). */
  function VertexStep(l: Vertex, r: Vertex): (s: Vertex)
    ensures s.vPos.w == r.vPos.w && s.normal.w == r.normal.w
  {
    VertexScale(VertexSub(r, l), Recip(StepSpan(l, r)))
  }

  /** Two vertices agree on every field the rasteriser interpolates: all of
      vPosH, the x, y, z of vPos and normal, tc, vColor and rhw. */
  ghost predicate SameAttributes(a: Vertex, b: Vertex)
  {
    && a.vPosH == b.vPosH
    && a.vPos.x == b.vPos.x && a.vPos.y == b.vPos.y && a.vPos.z == b.vPos.z
    && a.normal.x == b.normal.x && a.normal.y == b.normal.y && a.normal.z == b.normal.z
    && a.tc == b.tc && a.vColor == b.vColor && a.rhw == b.rhw
  }

  /** vertex_step is the increment that reaches r from l over the span
      r.x - l.x + 1e-6 (when that span is not zero). */
  lemma StepReachesRight(l: Vertex, r: Vertex)
    requires StepSpan(l, r) != 0.0
    ensures SameAttributes(VertexAdd(l, VertexScale(VertexStep(l, r), StepSpan(l, r))), r)
  {
    var d := StepSpan(l, r);
    var k := Recip(d);
    assert VertexStep(l, r) == VertexScale(VertexSub(r, l), k);
    ScaledDifferenceReaches(l, r, k, d);
  }

  /** Adding (r - l)·k·d to l gives r back when k·d == 1. */
  lemma ScaledDifferenceReaches(l: Vertex, r: Vertex, k: real, d: real)
    requires k * d == 1.0
    ensures SameAttributes(VertexAdd(l, VertexScale(VertexScale(VertexSub(r, l), k), d)), r)
  {
    var u := VertexSub(r, l);
    VertexScaleCompose(u, k, d);
    assert VertexScale(VertexScale(u, k), d) == u;
    assert VertexAdd(l, u).vPosH == r.vPosH;
  }

  /** `n` applications of vertex_add of `step`, as draw_scanline advances its
      vertex once per column. */
  function Advance(v: Vertex, step: Vertex, n: nat): Vertex
  {
    if n == 0 then v else VertexAdd(Advance(v, step, n - 1), step)
  }

  /** p moved t times along s. */
  function Moved(p: Vec4, s: Vec4, t: real): Vec4
  {
    Vec4(p.x + t * s.x, p.y + t * s.y, p.z + t * s.z, p.w + t * s.w)
  }

  /** After n steps the homogeneous position has moved by n times the step. */
  lemma {:induction false} AdvanceLinear(v: Vertex, step: Vertex, n: nat)
    ensures Advance(v, step, n).vPosH == Moved(v.vPosH, step.vPosH, n as real)
    ensures Advance(v, step, n).rhw == v.rhw + n as real * step.rhw
  {
    if n > 0 {
      AdvanceLinear(v, step, n - 1);
      var prev := Advance(v, step, n - 1);
      assert Advance(v, step, n) == VertexAdd(prev, step);
      var m, t := (n - 1) as real, n as real;
      MovedOneMore(v.vPosH, step.vPosH, m, t);
      OneMoreStep(v.rhw, step.rhw, m, t);
    }
  }

  lemma MovedOneMore(p: Vec4, s: Vec4, m: real, t: real)
    requires t == m + 1.0
    ensures Moved(p, s, t) == Vec4(Moved(p, s, m).x + s.x, Moved(p, s, m).y + s.y,
                                   Moved(p, s, m).z + s.z, Moved(p, s, m).w + s.w)
  {
    OneMoreStep(p.x, s.x, m, t);
    OneMoreStep(p.y, s.y, m, t);
    OneMoreStep(p.z, s.z, m, t);
    OneMoreStep(p.w, s.w, m, t);
  }

  lemma OneMoreStep(a: real, s: real, m: real, t: real)
    requires t == m + 1.0
    ensures a + t * s == a + m * s + s
  {
  }

  /** vertex_interp as the repository writes it: every field is lerped
      between v1 and v2 except tc.y, which is lerped between the tc.x values
      (src/geom.c:208). */
  function VertexInterpAsWritten(v1: Vertex, v2: Vertex, x: real): (v: Vertex)
    ensures v.tc.y == Lerp(v1.tc.x, v2.tc.x, x)
    ensures v == VertexInterp(v1, v2, x).(tc := Vec2(Lerp(v1.tc.x, v2.tc.x, x), Lerp(v1.tc.x, v2.tc.x, x)))
  {
    Vertex(LerpVec4(v1.vPosH, v2.vPosH, x),
           LerpVec4(v1.vPos, v2.vPos, x),
           LerpVec4(v1.normal, v2.normal, x),
           Vec2(Lerp(v1.tc.x, v2.tc.x, x), Lerp(v1.tc.x, v2.tc.x, x)),
           Color(Lerp(v1.vColor.r, v2.vColor.r, x), Lerp(v1.vColor.g, v2.vColor.g, x), Lerp(v1.vColor.b, v2.vColor.b, x)),
           Lerp(v1.rhw, v2.rhw, x))
  }

  /** At ratio 0 the as-written vertex_interp does not reproduce its first
      vertex: a vertex with texture coordinate (0, 1) comes back with (0, 0). */
  lemma VertexInterpAsWrittenLosesTcY()
    ensures var v1 := ZeroVertex.(tc := Vec2(0.0, 1.0));
      VertexInterpAsWritten(v1, v1, 0.0).tc == Vec2(0.0, 0.0) && VertexInterpAsWritten(v1, v1, 0.0) != v1
  {
    var v1 := ZeroVertex.(tc := Vec2(0.0, 1.0));
    assert VertexInterpAsWritten(v1, v1, 0.0).tc.y == Lerp(0.0, 0.0, 0.0);
  }

  /** vertex_interp with tc.y lerped between the tc.y values, as the
      surrounding code (every other field, and lerp_vec4f) evidently intends.
      At ratio 0 it is v1 and at ratio 1 it is v2, in every field. */
  function VertexInterp(v1: Vertex, v2: Vertex, x: real): (v: Vertex)
    ensures x == 0.0 ==> v == v1
    ensures x == 1.0 ==> v == v2
    ensures v.vPosH == LerpVec4(v1.vPosH, v2.vPosH, x)
  {
    Vertex(LerpVec4(v1.vPosH, v2.vPosH, x),
           LerpVec4(v1.vPos, v2.vPos, x),
           LerpVec4(v1.normal, v2.normal, x),
           Vec2(Lerp(v1.tc.x, v2.tc.x, x), Lerp(v1.tc.y, v2.tc.y, x)),
           Color(Lerp(v1.vColor.r, v2.vColor.r, x), Lerp(v1.vColor.g, v2.vColor.g, x), Lerp(v1.vColor.b, v2.vColor.b, x)),
           Lerp(v1.rhw, v2.rhw, x))
  }
}
