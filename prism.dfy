/** The prism that ExtrudePolygonOnMap builds from a ring of base positions:
    the vertex buffer (bottom ring, then the top ring raised by the height)
    and the flat triangle index list (fan caps from vertex 0, then two wall
    triangles per ring edge, including the edge from the last point back to
    the first). The index list depends on the ring length alone. */
module Prism {
  import opened Geometry

  /** A mesh as handed to the engine: the vertex buffer and the flat index
      list, three indices per triangle. */
  datatype Mesh = Mesh(vertices: seq<Vec3>, triangles: seq<int>)

  /** Number of iterations of the cap loop `for (i = 1; i < n - 1; i++)`. */
  function CapCount(n: nat): (c: nat)
    ensures n >= 2 ==> c == n - 2
    ensures n < 2 ==> c == 0
  {
    if n >= 2 then n - 2 else 0
  }

  /** The six indices one cap iteration emits for a ring of `n` points:
      the bottom triangle (0, i+1, i), then the top triangle (n, n+i, n+i+1). */
  function CapPair(n: int, i: int): seq<int>
  {
    [0, i + 1, i, n, n + i, n + i + 1]
  }

  /** The six indices one side iteration emits for ring edge i -> next:
      (i, n+i, n+next), then (i, n+next, next). */
  function WallPair(n: nat, i: nat): seq<int>
    requires i < n
  {
    var next := (i + 1) % n;
    [i, n + i, n + next, i, n + next, next]
  }

  /** Indices emitted by the first `m` iterations of the cap loop. */
  function CapIndices(n: nat, m: nat): seq<int>
  {
    if m == 0 then [] else CapIndices(n, m - 1) + CapPair(n, m)
  }

  /** Indices emitted by the first `m` iterations of the side loop. */
  function WallIndices(n: nat, m: nat): seq<int>
    requires m <= n
  {
    if m == 0 then [] else WallIndices(n, m - 1) + WallPair(n, m - 1)
  }

  /** The whole index list for a ring of `n` points: all caps, then all walls. */
  function PrismTriangles(n: nat): seq<int>
  {
    CapIndices(n, CapCount(n)) + WallIndices(n, n)
  }

  /** The engine positions of a ring of map points, in ring order;
      `project` stands for the map component's GeographicToEngine. */
  function ProjectRing(project: GeoPoint -> Vec3, points: seq<GeoPoint>): (r: seq<Vec3>)
    ensures |r| == |points|
    ensures forall i :: 0 <= i < |r| ==> r[i] == project(points[i])
  {
    seq(|points|, i requires 0 <= i < |points| => project(points[i]))
  }

  /** The mesh extruded from `base` by `height`. */
  function Extruded(base: seq<Vec3>, height: real): Mesh
  {
    Mesh(base + LiftRing(base, height), PrismTriangles(|base|))
  }

  /** Triangle `t` of a flat index list. */
  function TriangleAt(tris: seq<int>, t: nat): (int, int, int)
    requires 3 * t + 2 < |tris|
  {
    (tris[3 * t], tris[3 * t + 1], tris[3 * t + 2])
  }

  predicate DistinctCorners(tri: (int, int, int))
  {
    tri.0 != tri.1 && tri.1 != tri.2 && tri.0 != tri.2
  }

  /** Triangle `t` of `mesh` names vertices of the buffer, two of them at
      the same position, so it has no area. */
  predicate RepeatsPosition(mesh: Mesh, t: nat)
    requires 3 * t + 2 < |mesh.triangles|
  {
    var (a, b, c) := TriangleAt(mesh.triangles, t);
    var vs := mesh.vertices;
    0 <= a < |vs| && 0 <= b < |vs| && 0 <= c < |vs| &&
    (vs[a] == vs[b] || vs[b] == vs[c] || vs[a] == vs[c])
  }

  // ---------------------------------------------------------------------
  // The construction, as the two source files perform it.
  // ---------------------------------------------------------------------

  /** Builds the vertex buffer and the index list from the base ring: the
      bottom ring copied, then the top ring, then the cap loop, then the side
      loop, with the bottom ring starting at index 0 and the top ring at n. */
  method BuildPrism(baseVertices: seq<Vec3>, height: real) returns (mesh: Mesh)
    ensures mesh == Extruded(baseVertices, height)
    ensures |mesh.vertices| == 2 * |baseVertices|
    ensures forall i :: 0 <= i < |baseVertices| ==>
              mesh.vertices[i] == baseVertices[i] &&
              mesh.vertices[|baseVertices| + i] == Lift(baseVertices[i], height)
  {
    var vertices: seq<Vec3> := [];
    vertices := vertices + baseVertices;
    var topStart := |vertices|;
    vertices := AppendTopRing(vertices, baseVertices, height);
    var triangles := AppendCaps([], topStart);
    triangles := AppendWalls(triangles, topStart);
    mesh := Mesh(vertices, triangles);
  }

  /** The loop that appends, for each base vertex in order, a copy raised by
      `height`. */
  method AppendTopRing(vertices0: seq<Vec3>, baseVertices: seq<Vec3>, height: real)
    returns (vertices: seq<Vec3>)
    ensures vertices == vertices0 + LiftRing(baseVertices, height)
  {
    vertices := vertices0;
    var k := 0;
    while k < |baseVertices|
      invariant 0 <= k <= |baseVertices|
      invariant vertices == vertices0 + LiftRing(baseVertices[..k], height)
    {
      var v := baseVertices[k];
      assert LiftRing(baseVertices[..k + 1], height) == LiftRing(baseVertices[..k], height) + [Lift(v, height)];
      vertices := vertices + [Vec3(v.x, v.y + height, v.z)];
      k := k + 1;
    }
    assert baseVertices[..k] == baseVertices;
  }

  /** The cap loop `for (i = 1; i < n - 1; i++)`: a bottom and a top fan
      triangle per iteration. The bottom ring starts at index 0, the top ring
      at `n`. */
  method AppendCaps(triangles0: seq<int>, n: nat) returns (triangles: seq<int>)
    ensures triangles == triangles0 + CapIndices(n, CapCount(n))
  {
    var baseStart, topStart := 0, n;
    triangles := triangles0;
    var i := 1;
    while i < n - 1
      invariant 1 <= i && i - 1 <= CapCount(n)
      invariant triangles == triangles0 + CapIndices(n, i - 1)
    {
      // Bottom
      triangles := triangles + [baseStart, baseStart + i + 1, baseStart + i];
      // Top
      triangles := triangles + [topStart, topStart + i, topStart + i + 1];
      i := i + 1;
    }
  }

  /** The side loop: for each ring edge i -> (i + 1) mod n, two triangles
      joining the bottom edge to the top edge. */
  method AppendWalls(triangles0: seq<int>, n: nat) returns (triangles: seq<int>)
    ensures triangles == triangles0 + WallIndices(n, n)
  {
    var baseStart, topStart := 0, n;
    triangles := triangles0;
    var i := 0;
    while i < n
      invariant 0 <= i <= n
      invariant triangles == triangles0 + WallIndices(n, i)
    {
      var next := (i + 1) % n;
      var b0 := baseStart + i;
      var b1 := baseStart + next;
      var t0 := topStart + i;
      var t1 := topStart + next;
      triangles := triangles + [b0, t0, t1];
      triangles := triangles + [b0, t1, b1];
      i := i + 1;
    }
  }

  // ---------------------------------------------------------------------
  // Layout of the index list.
  // ---------------------------------------------------------------------

  lemma {:induction false} CapIndicesLayout(n: nat, m: nat, i: nat)
    requires 1 <= i <= m
    ensures |CapIndices(n, m)| == 6 * m
    ensures CapIndices(n, m)[6 * (i - 1) .. 6 * i] == CapPair(n, i)
  {
    if i < m {
      CapIndicesLayout(n, m - 1, i);
    } else {
      CapIndicesLength(n, m - 1);
    }
  }

  lemma {:induction false} CapIndicesLength(n: nat, m: nat)
    ensures |CapIndices(n, m)| == 6 * m
  {
    if m > 0 {
      CapIndicesLength(n, m - 1);
    }
  }

  lemma {:induction false} WallIndicesLength(n: nat, m: nat)
    requires m <= n
    ensures |WallIndices(n, m)| == 6 * m
  {
    if m > 0 {
      WallIndicesLength(n, m - 1);
    }
  }

  lemma {:induction false} WallIndicesLayout(n: nat, m: nat, i: nat)
    requires i < m <= n
    ensures |WallIndices(n, m)| == 6 * m
    ensures WallIndices(n, m)[6 * i .. 6 * i + 6] == WallPair(n, i)
  {
    if i < m - 1 {
      WallIndicesLayout(n, m - 1, i);
    } else {
      WallIndicesLength(n, m - 1);
    }
  }

  /** The list holds 2 * CapCount(n) cap triangles and 2n wall triangles:
      4n - 4 triangles for n >= 3, 4 for n = 2, 2 for n = 1 and none for n = 0,
      since nothing short-circuits small rings. */
  lemma TriangleCount(n: nat)
    ensures |PrismTriangles(n)| % 3 == 0
    ensures |PrismTriangles(n)| / 3 == 2 * CapCount(n) + 2 * n
    ensures n >= 3 ==> |PrismTriangles(n)| / 3 == 4 * n - 4
    ensures n == 2 ==> |PrismTriangles(n)| / 3 == 4
    ensures n == 1 ==> |PrismTriangles(n)| / 3 == 2
    ensures n == 0 ==> PrismTriangles(n) == []
  {
    CapIndicesLength(n, CapCount(n));
    WallIndicesLength(n, n);
  }

  /** Cap iteration i (1 <= i <= n - 2) occupies triangles 2(i-1) and
      2(i-1)+1: the bottom (0, i+1, i) and the top (n, n+i, n+i+1), which is
      the bottom shifted by n with its last two corners swapped. */
  lemma CapTriangles(n: nat, i: nat)
    requires 1 <= i <= CapCount(n)
    ensures 3 * (2 * i - 1) + 2 < |PrismTriangles(n)|
    ensures TriangleAt(PrismTriangles(n), 2 * i - 2) == (0, i + 1, i)
    ensures TriangleAt(PrismTriangles(n), 2 * i - 1) == (n, n + i, n + i + 1)
    ensures var (b0, b1, b2) := TriangleAt(PrismTriangles(n), 2 * i - 2);
            TriangleAt(PrismTriangles(n), 2 * i - 1) == (b0 + n, b2 + n, b1 + n)
  {
    var caps := CapIndices(n, CapCount(n));
    CapIndicesLayout(n, CapCount(n), i);
    WallIndicesLength(n, n);
    var tris := PrismTriangles(n);
    assert tris[6 * (i - 1) .. 6 * i] == caps[6 * (i - 1) .. 6 * i];
  }

  /** Triangle u of `b` is triangle k + u of `a + b` when `a` holds k triangles. */
  lemma AppendedTriangle(a: seq<int>, b: seq<int>, k: nat, u: nat)
    requires |a| == 3 * k && 3 * u + 2 < |b|
    ensures 3 * (k + u) + 2 < |a + b|
    ensures TriangleAt(a + b, k + u) == TriangleAt(b, u)
  {
  }

  /** Six indices at offset 6u are triangles 2u and 2u + 1. */
  lemma PairTriangles(s: seq<int>, u: nat, p: seq<int>)
    requires 6 * u + 6 <= |s| && s[6 * u .. 6 * u + 6] == p
    ensures TriangleAt(s, 2 * u) == (p[0], p[1], p[2])
    ensures TriangleAt(s, 2 * u + 1) == (p[3], p[4], p[5])
  {
    assert s[6 * u] == p[0] && s[6 * u + 1] == p[1] && s[6 * u + 2] == p[2];
    assert s[6 * u + 3] == p[3] && s[6 * u + 4] == p[4] && s[6 * u + 5] == p[5];
  }

  /** Edge i's triangles within the side loop's own output, before the caps
      are prepended. */
  lemma WallListTriangles(n: nat, i: nat)
    requires i < n
    ensures 3 * (2 * i + 1) + 2 < |WallIndices(n, n)|
    ensures TriangleAt(WallIndices(n, n), 2 * i) == (i, n + i, n + (i + 1) % n)
    ensures TriangleAt(WallIndices(n, n), 2 * i + 1) == (i, n + (i + 1) % n, (i + 1) % n)
  {
    WallIndicesLayout(n, n, i);
    PairTriangles(WallIndices(n, n), i, WallPair(n, i));
  }

  /** Ring edge i -> (i + 1) mod n, for 0 <= i < n, occupies the two triangles
      after all caps and the walls of the earlier edges: (i, n+i, n+next) and
      (i, n+next, next). */
  lemma WallTriangles(n: nat, i: nat)
    requires i < n
    ensures var t := 2 * CapCount(n) + 2 * i;
            3 * (t + 1) + 2 < |PrismTriangles(n)| &&
            TriangleAt(PrismTriangles(n), t) == (i, n + i, n + (i + 1) % n) &&
            TriangleAt(PrismTriangles(n), t + 1) == (i, n + (i + 1) % n, (i + 1) % n)
  {
    var caps, walls := CapIndices(n, CapCount(n)), WallIndices(n, n);
    CapIndicesLength(n, CapCount(n));
    WallListTriangles(n, i);
    AppendedTriangle(caps, walls, 2 * CapCount(n), 2 * i);
    AppendedTriangle(caps, walls, 2 * CapCount(n), 2 * i + 1);
  }

  /** Closed form of triangle `t` of the list for a ring of `n` points,
      independent of the loops: cap pairs first, then wall pairs. */
  function ClosedFormTriangle(n: nat, t: nat): (int, int, int)
    requires t < 2 * CapCount(n) + 2 * n
  {
    var c := CapCount(n);
    if t < 2 * c then
      var i := t / 2 + 1;
      if t % 2 == 0 then (0, i + 1, i) else (n, n + i, n + i + 1)
    else
      var i := (t - 2 * c) / 2;
      var next := (i + 1) % n;
      if t % 2 == 0 then (i, n + i, n + next) else (i, n + next, next)
  }

  /** Every triangle the loops emit is the closed-form triangle at its position. */
  lemma TriangleMatchesClosedForm(n: nat, t: nat)
    requires t < 2 * CapCount(n) + 2 * n
    ensures 3 * t + 2 < |PrismTriangles(n)|
    ensures TriangleAt(PrismTriangles(n), t) == ClosedFormTriangle(n, t)
  {
    if t < 2 * CapCount(n) {
      CapMatchesClosedForm(n, t);
    } else {
      WallMatchesClosedForm(n, t);
    }
  }

  /** TriangleMatchesClosedForm for a cap position. */
  lemma CapMatchesClosedForm(n: nat, t: nat)
    requires t < 2 * CapCount(n)
    ensures 3 * t + 2 < |PrismTriangles(n)|
    ensures TriangleAt(PrismTriangles(n), t) == ClosedFormTriangle(n, t)
  {
    var i := t / 2 + 1;
    CapTriangles(n, i);
    if t % 2 == 0 {
      assert t == 2 * i - 2;
    } else {
      assert t == 2 * i - 1;
    }
  }

  /** TriangleMatchesClosedForm for a wall position. */
  lemma WallMatchesClosedForm(n: nat, t: nat)
    requires 2 * CapCount(n) <= t < 2 * CapCount(n) + 2 * n
    ensures 3 * t + 2 < |PrismTriangles(n)|
    ensures TriangleAt(PrismTriangles(n), t) == ClosedFormTriangle(n, t)
  {
    var i, r := (t - 2 * CapCount(n)) / 2, t % 2;
    assert t == 2 * CapCount(n) + 2 * i + r;
    ClosedFormWall(n, i, r);
    WallTriangles(n, i);
  }

  /** The closed form at the wall position of edge i, parity r. */
  lemma ClosedFormWall(n: nat, i: nat, r: nat)
    requires i < n && r < 2
    ensures 2 * CapCount(n) + 2 * i + r < 2 * CapCount(n) + 2 * n
    ensures ClosedFormTriangle(n, 2 * CapCount(n) + 2 * i + r) ==
            if r == 0 then (i, n + i, n + (i + 1) % n) else (i, n + (i + 1) % n, (i + 1) % n)
  {
  }

  /** Every corner of the closed-form triangle names one of the 2n vertices. */
  lemma ClosedFormInRange(n: nat, t: nat)
    requires t < 2 * CapCount(n) + 2 * n
    ensures var (a, b, d) := ClosedFormTriangle(n, t);
            0 <= a < 2 * n && 0 <= b < 2 * n && 0 <= d < 2 * n
  {
  }

  /** Every emitted index names a vertex of the 2n-vertex buffer. */
  lemma IndicesInRange(n: nat)
    ensures forall k :: 0 <= k < |PrismTriangles(n)| ==> 0 <= PrismTriangles(n)[k] < 2 * n
  {
    var tris := PrismTriangles(n);
    TriangleCount(n);
    forall k | 0 <= k < |tris|
      ensures 0 <= tris[k] < 2 * n
    {
      var t := k / 3;
      assert k == 3 * t || k == 3 * t + 1 || k == 3 * t + 2;
      TriangleMatchesClosedForm(n, t);
      ClosedFormInRange(n, t);
    }
  }

  /** For rings of two or more points no triangle names a vertex twice. */
  lemma DistinctCornersFromTwoPoints(n: nat)
    requires n >= 2
    ensures forall t :: 0 <= t < |PrismTriangles(n)| / 3 ==>
              DistinctCorners(TriangleAt(PrismTriangles(n), t))
  {
    var tris := PrismTriangles(n);
    TriangleCount(n);
    forall t | 0 <= t < |tris| / 3
      ensures DistinctCorners(TriangleAt(tris, t))
    {
      TriangleMatchesClosedForm(n, t);
      ClosedFormDistinct(n, t);
    }
  }

  lemma ClosedFormDistinct(n: nat, t: nat)
    requires n >= 2 && t < 2 * CapCount(n) + 2 * n
    ensures DistinctCorners(ClosedFormTriangle(n, t))
  {
  }

  /** A one-point ring still gets its two wall triangles, and both name a
      vertex twice. */
  lemma SinglePointRing()
    ensures PrismTriangles(1) == [0, 1, 1, 0, 1, 0]
    ensures !DistinctCorners(TriangleAt(PrismTriangles(1), 0))
    ensures !DistinctCorners(TriangleAt(PrismTriangles(1), 1))
  {
  }

  // ---------------------------------------------------------------------
  // Vertex buffer.
  // ---------------------------------------------------------------------

  /** The buffer holds the bottom ring in input order, then the top ring in
      the same order, each top vertex its bottom vertex raised by `height`. */
  lemma ExtrudedVertices(base: seq<Vec3>, height: real)
    ensures var mesh := Extruded(base, height);
            |mesh.vertices| == 2 * |base| &&
            forall i :: 0 <= i < |base| ==>
              mesh.vertices[i] == base[i] &&
              mesh.vertices[|base| + i].x == base[i].x &&
              mesh.vertices[|base| + i].z == base[i].z &&
              mesh.vertices[|base| + i].y == base[i].y + height
  {
  }

  /** With height 0 every top vertex equals its bottom vertex. */
  lemma ZeroHeightFlatPrism(base: seq<Vec3>)
    ensures forall i :: 0 <= i < |base| ==>
              Extruded(base, 0.0).vertices[|base| + i] == Extruded(base, 0.0).vertices[i]
  {
  }

  /** The whole mesh is well formed: 2n vertices, every index in range. */
  lemma ExtrudedWellFormed(base: seq<Vec3>, height: real)
    ensures |Extruded(base, height).vertices| == 2 * |base|
    ensures forall k :: 0 <= k < |Extruded(base, height).triangles| ==>
              0 <= Extruded(base, height).triangles[k] < |Extruded(base, height).vertices|
  {
    IndicesInRange(|base|);
  }

  /** A GeoJSON linear ring repeats its first position as its last. Nothing
      strips that duplicate, so both walls of the closing edge (last point
      back to the first) have no area, and neither have the last bottom and
      top cap triangles when there are caps at all. */
  lemma ClosedRingDegenerateTriangles(base: seq<Vec3>, height: real)
    requires |base| >= 2 && base[0] == base[|base| - 1]
    ensures var n := |base|;
            var last := 2 * CapCount(n) + 2 * (n - 1);
            3 * (last + 1) + 2 < |Extruded(base, height).triangles| &&
            RepeatsPosition(Extruded(base, height), last) &&
            RepeatsPosition(Extruded(base, height), last + 1)
    ensures |base| >= 3 ==>
            RepeatsPosition(Extruded(base, height), 2 * |base| - 6) &&
            RepeatsPosition(Extruded(base, height), 2 * |base| - 5)
  {
    ClosedRingWalls(base, height);
    if |base| >= 3 {
      ClosedRingCaps(base, height);
    }
  }

  /** The closing-edge half of ClosedRingDegenerateTriangles. */
  lemma ClosedRingWalls(base: seq<Vec3>, height: real)
    requires |base| >= 2 && base[0] == base[|base| - 1]
    ensures var n := |base|;
            var last := 2 * CapCount(n) + 2 * (n - 1);
            3 * (last + 1) + 2 < |Extruded(base, height).triangles| &&
            RepeatsPosition(Extruded(base, height), last) &&
            RepeatsPosition(Extruded(base, height), last + 1)
  {
    var n := |base|;
    var vs := Extruded(base, height).vertices;
    assert vs[n - 1] == vs[0] && vs[2 * n - 1] == vs[n];
    WallTriangles(n, n - 1);
    assert (n - 1 + 1) % n == 0;
  }

  /** The last-cap half of ClosedRingDegenerateTriangles. */
  lemma ClosedRingCaps(base: seq<Vec3>, height: real)
    requires |base| >= 3 && base[0] == base[|base| - 1]
    ensures 3 * (2 * |base| - 5) + 2 < |Extruded(base, height).triangles|
    ensures RepeatsPosition(Extruded(base, height), 2 * |base| - 6)
    ensures RepeatsPosition(Extruded(base, height), 2 * |base| - 5)
  {
    var n := |base|;
    var vs := Extruded(base, height).vertices;
    assert vs[n - 1] == vs[0] && vs[2 * n - 1] == vs[n];
    CapTriangles(n, n - 2);
  }
}
