/** The flat, regularly tessellated grids the scene uses for the ocean
    surface and the sea floor (main.cpp, createOceanMesh and
    createGroundMesh).

    Both builders lay out `width * depth` grid points in row-major order
    (z outer, x inner), centred on the origin with a spacing of two world
    units, and emit two triangles per cell. The vertex buffer is a flat
    sequence of floats: six per ocean vertex (position, normal) and eight
    per ground vertex (position, normal, uv). The closed-form buffers below
    are the reference the loop-based builders are proved against. */
module GridMesh {

  /** Floats per ocean vertex: position (3) and normal (3). */
  const OceanStride: nat := 6
  /** Floats per ground vertex: position (3), normal (3) and uv (2). */
  const GroundStride: nat := 8
  /** Indices per cell: two triangles. */
  const CellStride: nat := 6
  /** World units between neighbouring grid points. */
  const CellSize: real := 2.0

  /** Number of iterations of `for (int i = 0; i < n; ++i)`. */
  function Count(n: int): nat {
    if n > 0 then n else 0
  }

  /** World coordinate of grid line i on an axis of n grid points. */
  function Coord(n: int, i: int): real {
    (i as real - n as real / 2.0) * CellSize
  }

  /** Texture coordinate of grid line i on an axis of n grid points. */
  function UV(n: int, i: int): real
    requires n >= 2
  {
    i as real / (n - 1) as real
  }

  /** The ground builder divides by `width - 1` and `depth - 1` for every
      vertex it emits, so a grid that emits vertices must be at least two
      points wide and deep. */
  predicate UVDefined(width: int, depth: int) {
    width <= 0 || depth <= 0 || (width >= 2 && depth >= 2)
  }

  /** Float j (0..5) of the ocean vertex at grid point (x, z): position
      on the y = 0 plane, then the up normal (0, 1, 0). */
  function OceanSlot(width: int, depth: int, x: int, z: int, j: int): real {
    if j == 0 then Coord(width, x)
    else if j == 2 then Coord(depth, z)
    else if j == 4 then 1.0
    else 0.0
  }

  /** Float j (0..7) of the ground vertex at grid point (x, z): the ocean
      vertex followed by (u, v). */
  function GroundSlot(width: int, depth: int, x: int, z: int, j: int): real
    requires width >= 2 && depth >= 2
  {
    if j == 6 then UV(width, x)
    else if j == 7 then UV(depth, z)
    else OceanSlot(width, depth, x, z, j)
  }

  /** Float i of the ocean buffer: vertex i / 6 is grid point
      ((i / 6) % width, (i / 6) / width). */
  function OceanFloat(width: int, depth: int, i: nat): real
    requires width > 0
  {
    var v := i / OceanStride;
    OceanSlot(width, depth, v % width, v / width, i % OceanStride)
  }

  /** Float i of the ground buffer. */
  function GroundFloat(width: int, depth: int, i: nat): real
    requires width >= 2 && depth >= 2
  {
    var v := i / GroundStride;
    GroundSlot(width, depth, v % width, v / width, i % GroundStride)
  }

  /** Index i of the index buffer: cell i / 6 is cell
      ((i / 6) % (width - 1), (i / 6) / (width - 1)). */
  function IndexAt(width: int, i: nat): int
    requires width >= 2
  {
    var c := i / CellStride;
    CellCorners(width, c % (width - 1), c / (width - 1))[i % CellStride]
  }

  /** The two triangles of cell (x, z): (tl, bl, tr) and (tr, bl, br). */
  function CellCorners(width: int, x: int, z: int): seq<int> {
    var tl := z * width + x;
    var tr := tl + 1;
    var bl := (z + 1) * width + x;
    var br := bl + 1;
    [tl, bl, tr, tr, bl, br]
  }

  /** The first n floats of the ocean buffer. */
  function OceanPrefix(width: int, depth: int, n: nat): seq<real>
    requires width > 0
  {
    seq(n, i requires 0 <= i < n => OceanFloat(width, depth, i))
  }

  /** The first n floats of the ground buffer. */
  function GroundPrefix(width: int, depth: int, n: nat): seq<real>
    requires width >= 2 && depth >= 2
  {
    seq(n, i requires 0 <= i < n => GroundFloat(width, depth, i))
  }

  /** The first n entries of the index buffer. */
  function IndexPrefix(width: int, n: nat): seq<int>
    requires width >= 2
  {
    seq(n, i requires 0 <= i < n => IndexAt(width, i))
  }

  /** Closed-form ocean vertex buffer. */
  function OceanVertices(width: int, depth: int): seq<real> {
    if width > 0 && depth > 0 then OceanPrefix(width, depth, OceanStride * (width * depth))
    else []
  }

  /** Closed-form ground vertex buffer. */
  function GroundVertices(width: int, depth: int): seq<real>
    requires UVDefined(width, depth)
  {
    if width > 0 && depth > 0 then GroundPrefix(width, depth, GroundStride * (width * depth))
    else []
  }

  /** Closed-form index buffer, shared by both grids. */
  function GridIndices(width: int, depth: int): seq<int> {
    if width >= 2 && depth >= 2 then IndexPrefix(width, CellStride * ((width - 1) * (depth - 1)))
    else []
  }

  // ---------------------------------------------------------------------
  // Arithmetic of the row-major layout

  /** Euclidean division is unique. */
  lemma DivModUnique(n: int, d: int, q: int, r: int)
    requires d > 0 && 0 <= r < d && n == q * d + r
    ensures n / d == q && n % d == r
  {
    var q0, r0 := n / d, n % d;
    assert n == q0 * d + r0;
    assert (q - q0) * d == r0 - r;
    if q0 < q {
      MulAtLeast(q - q0, d);
    } else if q0 > q {
      MulAtLeast(q0 - q, d);
    }
  }

  lemma MulAtLeast(k: int, d: int)
    requires k >= 1 && d > 0
    ensures k * d >= d
  {
    assert k * d == (k - 1) * d + d;
  }

  lemma MulNonNegative(a: int, b: int)
    requires a >= 0 && b >= 0
    ensures a * b >= 0
  {
  }

  /** Row z of a grid with n rows of b points ends inside the grid. */
  lemma RowEnd(z: int, b: int, n: int)
    requires 0 <= z < n && b > 0
    ensures z * b + b <= n * b
  {
    assert n * b - (z * b + b) == (n - z - 1) * b;
    MulNonNegative(n - z - 1, b);
  }

  lemma MulSucc(z: int, b: int)
    ensures (z + 1) * b == z * b + b
  {
  }

  /** Entry j of vertex (or cell) number k = z * cols + x, in a buffer
      with `stride` entries per vertex, decodes back to (x, z, j). */
  lemma RowMajorSlot(stride: int, cols: int, x: int, z: int, k: int, j: int)
    requires stride > 0 && cols > 0 && 0 <= x < cols && z >= 0 && 0 <= j < stride
    requires k == z * cols + x
    ensures k >= 0
    ensures (stride * k + j) / stride == k && (stride * k + j) % stride == j
    ensures k % cols == x && k / cols == z
  {
    MulNonNegative(z, cols);
    DivModUnique(stride * k + j, stride, k, j);
    DivModUnique(k, cols, z, x);
  }

  /** Grid point (x, z) lies inside a grid of width * depth points. */
  lemma RowMajorBound(width: int, depth: int, x: int, z: int)
    requires 0 <= x < width && 0 <= z < depth
    ensures 0 <= z * width + x < width * depth
  {
    RowEnd(z, width, depth);
    MulNonNegative(z, width);
    assert depth * width == width * depth;
  }

  lemma MulMonotone(p: int, q: int, a: int)
    requires p <= q && a >= 0
    ensures p * a <= q * a
  {
    MulNonNegative(q - p, a);
    assert q * a - p * a == (q - p) * a;
  }

  /** A position c below a * b, read row-major with rows of a entries,
      lies in a row below b. */
  lemma RowOf(c: int, a: int, b: int)
    requires a > 0 && 0 <= c < a * b
    ensures 0 <= c / a < b && 0 <= c % a < a
  {
    var q := c / a;
    if q >= b {
      MulMonotone(b, q, a);
    }
  }

  // ---------------------------------------------------------------------
  // One step of each builder's inner loop

  lemma OceanStep(width: int, depth: int, x: int, z: int, k: nat)
    requires 0 <= x < width && 0 <= z && k == z * width + x
    ensures OceanPrefix(width, depth, OceanStride * k)
            + [Coord(width, x), 0.0, Coord(depth, z), 0.0, 1.0, 0.0]
            == OceanPrefix(width, depth, OceanStride * k + OceanStride)
  {
    var a := OceanPrefix(width, depth, OceanStride * k)
             + [Coord(width, x), 0.0, Coord(depth, z), 0.0, 1.0, 0.0];
    var b := OceanPrefix(width, depth, OceanStride * k + OceanStride);
    assert |a| == |b|;
    forall i | OceanStride * k <= i < |b|
      ensures a[i] == b[i]
    {
      RowMajorSlot(OceanStride, width, x, z, k, i - OceanStride * k);
    }
  }

  lemma GroundStep(width: int, depth: int, x: int, z: int, k: nat)
    requires width >= 2 && depth >= 2
    requires 0 <= x < width && 0 <= z && k == z * width + x
    ensures GroundPrefix(width, depth, GroundStride * k)
            + [Coord(width, x), 0.0, Coord(depth, z), 0.0, 1.0, 0.0, UV(width, x), UV(depth, z)]
            == GroundPrefix(width, depth, GroundStride * k + GroundStride)
  {
    var a := GroundPrefix(width, depth, GroundStride * k)
             + [Coord(width, x), 0.0, Coord(depth, z), 0.0, 1.0, 0.0, UV(width, x), UV(depth, z)];
    var b := GroundPrefix(width, depth, GroundStride * k + GroundStride);
    assert |a| == |b|;
    forall i | GroundStride * k <= i < |b|
      ensures a[i] == b[i]
    {
      RowMajorSlot(GroundStride, width, x, z, k, i - GroundStride * k);
    }
  }

  lemma IndexStep(width: int, x: int, z: int, c: nat)
    requires 0 <= x < width - 1 && 0 <= z && c == z * (width - 1) + x
    ensures IndexPrefix(width, CellStride * c) + CellCorners(width, x, z)
            == IndexPrefix(width, CellStride * c + CellStride)
  {
    var a := IndexPrefix(width, CellStride * c) + CellCorners(width, x, z);
    var b := IndexPrefix(width, CellStride * c + CellStride);
    assert |a| == |b|;
    forall i | CellStride * c <= i < |b|
      ensures a[i] == b[i]
    {
      RowMajorSlot(CellStride, width - 1, x, z, c, i - CellStride * c);
    }
  }

  // ---------------------------------------------------------------------
  // Properties of the closed-form buffers

  /** Vertex z * width + x of the ocean buffer sits at
      ((x - width/2) * 2, 0, (z - depth/2) * 2) with normal (0, 1, 0). */
  lemma OceanVertexAt(width: int, depth: int, x: int, z: int)
    requires 0 <= x < width && 0 <= z < depth
    ensures var k := z * width + x;
      && 0 <= k < width * depth
      && OceanStride * k + OceanStride <= |OceanVertices(width, depth)|
      && OceanVertices(width, depth)[OceanStride * k .. OceanStride * k + OceanStride]
         == [Coord(width, x), 0.0, Coord(depth, z), 0.0, 1.0, 0.0]
  {
    var k := z * width + x;
    RowMajorBound(width, depth, x, z);
    OceanStep(width, depth, x, z, k);
    var vs := OceanVertices(width, depth);
    assert vs[..OceanStride * k + OceanStride] == OceanPrefix(width, depth, OceanStride * k + OceanStride);
  }

  /** Vertex z * width + x of the ground buffer is the ocean vertex
      followed by uv = (x / (width - 1), z / (depth - 1)), and both uv
      components lie in [0, 1]. */
  lemma GroundVertexAt(width: int, depth: int, x: int, z: int)
    requires width >= 2 && depth >= 2
    requires 0 <= x < width && 0 <= z < depth
    ensures var k := z * width + x;
      && 0 <= k < width * depth
      && GroundStride * k + GroundStride <= |GroundVertices(width, depth)|
      && GroundVertices(width, depth)[GroundStride * k .. GroundStride * k + GroundStride]
         == [Coord(width, x), 0.0, Coord(depth, z), 0.0, 1.0, 0.0, UV(width, x), UV(depth, z)]
    ensures 0.0 <= UV(width, x) <= 1.0 && 0.0 <= UV(depth, z) <= 1.0
  {
    var k := z * width + x;
    RowMajorBound(width, depth, x, z);
    GroundStep(width, depth, x, z, k);
    var vs := GroundVertices(width, depth);
    assert vs[..GroundStride * k + GroundStride] == GroundPrefix(width, depth, GroundStride * k + GroundStride);
    UVInUnitRange(width, x);
    UVInUnitRange(depth, z);
  }

  /** Texture coordinates span [0, 1] from the first grid line to the last. */
  lemma UVInUnitRange(n: int, i: int)
    requires n >= 2 && 0 <= i < n
    ensures 0.0 <= UV(n, i) <= 1.0
    ensures i == 0 ==> UV(n, i) == 0.0
    ensures i == n - 1 ==> UV(n, i) == 1.0
  {
    var d := (n - 1) as real;
    assert UV(n, i) * d == i as real;
  }

  /** The first ground vertex has uv (0, 0) and the last has uv (1, 1). */
  lemma GroundUVCorners(width: int, depth: int)
    requires width >= 2 && depth >= 2
    ensures var vs := GroundVertices(width, depth);
      && |vs| == GroundStride * (width * depth)
      && vs[6] == 0.0 && vs[7] == 0.0
      && vs[|vs| - 2] == 1.0 && vs[|vs| - 1] == 1.0
  {
    var vs := GroundVertices(width, depth);
    var n := width * depth;
    assert |vs| == GroundStride * n;
    GroundVertexAt(width, depth, 0, 0);
    UVInUnitRange(width, width - 1);
    UVInUnitRange(depth, depth - 1);
    var k := (depth - 1) * width + (width - 1);
    assert k + 1 == n by {
      MulSucc(depth - 1, width);
    }
    GroundVertexAt(width, depth, width - 1, depth - 1);
  }

  /** Cell (x, z) occupies indices 6 * (z * (width - 1) + x) onwards and
      emits tl, tl + width, tl + 1, tl + 1, tl + width, tl + width + 1
      with tl = z * width + x. */
  lemma CellIndicesAt(width: int, depth: int, x: int, z: int)
    requires 0 <= x < width - 1 && 0 <= z < depth - 1
    ensures var c := z * (width - 1) + x;
      var tl := z * width + x;
      && CellStride * c + CellStride <= |GridIndices(width, depth)|
      && GridIndices(width, depth)[CellStride * c .. CellStride * c + CellStride]
         == [tl, tl + width, tl + 1, tl + 1, tl + width, tl + width + 1]
  {
    var c := z * (width - 1) + x;
    RowMajorBound(width - 1, depth - 1, x, z);
    IndexStep(width, x, z, c);
    MulSucc(z, width);
    var ix := GridIndices(width, depth);
    assert ix[..CellStride * c + CellStride] == IndexPrefix(width, CellStride * c + CellStride);
  }

  /** Every index refers to a vertex of the grid: 0 <= index < width * depth. */
  lemma GridIndicesInRange(width: int, depth: int)
    ensures forall i :: 0 <= i < |GridIndices(width, depth)| ==>
      0 <= GridIndices(width, depth)[i] < Count(width) * Count(depth)
  {
    if width >= 2 && depth >= 2 {
      var ix := GridIndices(width, depth);
      forall i | 0 <= i < |ix|
        ensures 0 <= ix[i] < width * depth
      {
        var c := i / CellStride;
        RowOf(c, width - 1, depth - 1);
        CellInRange(width, depth, c % (width - 1), c / (width - 1));
      }
    }
  }

  /** The corners of cell (x, z) lie inside the grid. */
  lemma CellInRange(width: int, depth: int, x: int, z: int)
    requires 0 <= x < width - 1 && 0 <= z < depth - 1
    ensures forall j :: 0 <= j < CellStride ==> 0 <= CellCorners(width, x, z)[j] < width * depth
  {
    RowMajorBound(width, depth, x + 1, z + 1);
    MulSucc(z, width);
    MulNonNegative(z, width);
  }

  /** A grid three points wide and two deep has two cells; the first
      emits (0, 3, 1), (1, 3, 4) and the second (1, 4, 2), (2, 4, 5). */
  lemma GridIndicesExample()
    ensures GridIndices(3, 2) == [0, 3, 1, 1, 3, 4, 1, 4, 2, 2, 4, 5]
  {
    var g := GridIndices(3, 2);
    assert |g| == 12;
    assert CellCorners(3, 0, 0) == [0, 3, 1, 1, 3, 4];
    assert CellCorners(3, 1, 0) == [1, 4, 2, 2, 4, 5];
    assert g[0] == IndexAt(3, 0) == 0;
    assert g[1] == IndexAt(3, 1) == 3;
    assert g[2] == IndexAt(3, 2) == 1;
    assert g[3] == IndexAt(3, 3) == 1;
    assert g[4] == IndexAt(3, 4) == 3;
    assert g[5] == IndexAt(3, 5) == 4;
    assert g[6] == IndexAt(3, 6) == 1;
    assert g[7] == IndexAt(3, 7) == 4;
    assert g[8] == IndexAt(3, 8) == 2;
    assert g[9] == IndexAt(3, 9) == 2;
    assert g[10] == IndexAt(3, 10) == 4;
    assert g[11] == IndexAt(3, 11) == 5;
  }

  // ---------------------------------------------------------------------
  // The builders

  /** The index loops shared by both mesh builders: two triangles per
      cell, cells in row-major order. */
  method IndexLoops(width: int, depth: int) returns (indices: seq<int>)
    ensures width >= 2 ==> indices == IndexPrefix(width, CellStride * (Count(depth - 1) * Count(width - 1)))
    ensures width < 2 ==> indices == []
  {
    indices := [];
    ghost var c: nat := 0;
    var z := 0;
    while z < depth - 1
      invariant 0 <= z <= Count(depth - 1)
      invariant c == z * Count(width - 1)
      invariant width >= 2 ==> indices == IndexPrefix(width, CellStride * c)
      invariant width < 2 ==> indices == []
    {
      var x := 0;
      while x < width - 1
        invariant 0 <= x <= Count(width - 1)
        invariant c == z * Count(width - 1) + x
        invariant width >= 2 ==> indices == IndexPrefix(width, CellStride * c)
        invariant width < 2 ==> indices == []
      {
        var tl := (z * width) + x;
        var tr := tl + 1;
        var bl := ((z + 1) * width) + x;
        var br := bl + 1;
        IndexStep(width, x, z, c);
        assert [tl, bl, tr, tr, bl, br] == CellCorners(width, x, z);
        indices := indices + [tl, bl, tr, tr, bl, br];
        x := x + 1;
        c := c + 1;
      }
      MulSucc(z, Count(width - 1));
      z := z + 1;
    }
  }

  /** The index buffer of both grids: exactly the closed form, six entries
      per cell, every entry a vertex of the grid. */
  method BuildIndices(width: int, depth: int) returns (indices: seq<int>)
    ensures |indices| == CellStride * Count(width - 1) * Count(depth - 1)
    ensures indices == GridIndices(width, depth)
    ensures forall i :: 0 <= i < |indices| ==> 0 <= indices[i] < Count(width) * Count(depth)
  {
    indices := IndexLoops(width, depth);
    assert Count(depth - 1) * Count(width - 1) == Count(width - 1) * Count(depth - 1);
    GridIndicesInRange(width, depth);
  }

  /** The vertex loops of createOceanMesh: grid points in row-major order,
      six floats each. */
  method OceanVertexLoops(width: int, depth: int) returns (vertices: seq<real>)
    ensures width > 0 ==> vertices == OceanPrefix(width, depth, OceanStride * (Count(depth) * Count(width)))
    ensures width <= 0 ==> vertices == []
  {
    vertices := [];
    ghost var k: nat := 0;
    var z := 0;
    while z < depth
      invariant 0 <= z <= Count(depth)
      invariant k == z * Count(width)
      invariant width > 0 ==> vertices == OceanPrefix(width, depth, OceanStride * k)
      invariant width <= 0 ==> vertices == []
    {
      var x := 0;
      while x < width
        invariant 0 <= x <= Count(width)
        invariant k == z * Count(width) + x
        invariant width > 0 ==> vertices == OceanPrefix(width, depth, OceanStride * k)
        invariant width <= 0 ==> vertices == []
      {
        OceanStep(width, depth, x, z, k);
        vertices := vertices + [Coord(width, x), 0.0, Coord(depth, z), 0.0, 1.0, 0.0];
        x := x + 1;
        k := k + 1;
      }
      MulSucc(z, Count(width));
      z := z + 1;
    }
  }

  /** createOceanMesh without the GPU upload: the closed-form ocean buffer
      and the shared index buffer. */
  method CreateOceanMesh(width: int, depth: int) returns (vertices: seq<real>, indices: seq<int>)
    ensures |vertices| == OceanStride * Count(width) * Count(depth)
    ensures vertices == OceanVertices(width, depth)
    ensures |indices| == CellStride * Count(width - 1) * Count(depth - 1)
    ensures indices == GridIndices(width, depth)
    ensures forall i :: 0 <= i < |indices| ==> 0 <= indices[i] < Count(width) * Count(depth)
  {
    vertices := OceanVertexLoops(width, depth);
    assert Count(depth) * Count(width) == Count(width) * Count(depth);
    indices := BuildIndices(width, depth);
  }

  /** The vertex loops of createGroundMesh: grid points in row-major
      order, eight floats each. */
  method GroundVertexLoops(width: int, depth: int) returns (vertices: seq<real>)
    requires UVDefined(width, depth)
    ensures width > 0 && depth > 0 ==>
      vertices == GroundPrefix(width, depth, GroundStride * (Count(depth) * Count(width)))
    ensures width <= 0 || depth <= 0 ==> vertices == []
  {
    vertices := [];
    ghost var k: nat := 0;
    var z := 0;
    while z < depth
      invariant 0 <= z <= Count(depth)
      invariant k == z * Count(width)
      invariant width > 0 && depth > 0 ==> vertices == GroundPrefix(width, depth, GroundStride * k)
      invariant width <= 0 || depth <= 0 ==> vertices == []
    {
      var x := 0;
      while x < width
        invariant 0 <= x <= Count(width)
        invariant k == z * Count(width) + x
        invariant width > 0 && depth > 0 ==> vertices == GroundPrefix(width, depth, GroundStride * k)
        invariant width <= 0 || depth <= 0 ==> vertices == []
      {
        var worldX := Coord(width, x);
        var worldZ := Coord(depth, z);
        var u := UV(width, x);
        var v := UV(depth, z);
        GroundStep(width, depth, x, z, k);
        vertices := vertices + [worldX, 0.0, worldZ, 0.0, 1.0, 0.0, u, v];
        x := x + 1;
        k := k + 1;
      }
      MulSucc(z, Count(width));
      z := z + 1;
    }
  }

  /** createGroundMesh without the GPU upload: the closed-form ground
      buffer (with uv) and the shared index buffer. */
  method CreateGroundMesh(width: int, depth: int) returns (vertices: seq<real>, indices: seq<int>)
    requires UVDefined(width, depth)
    ensures |vertices| == GroundStride * Count(width) * Count(depth)
    ensures vertices == GroundVertices(width, depth)
    ensures |indices| == CellStride * Count(width - 1) * Count(depth - 1)
    ensures indices == GridIndices(width, depth)
    ensures forall i :: 0 <= i < |indices| ==> 0 <= indices[i] < Count(width) * Count(depth)
  {
    vertices := GroundVertexLoops(width, depth);
    assert Count(depth) * Count(width) == Count(width) * Count(depth);
    indices := BuildIndices(width, depth);
  }
}
