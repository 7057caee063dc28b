/**
 * The procedural terrain: a square heightfield mesh of `gridSize` cells per
 * side, the triangle list over it, corridors carved from random edge points
 * toward the centre vertex, spawn points snapped onto the carved surface, and
 * the tower placed on the centre vertex.
 *
 * The noise that gives the initial heights and the random draws that choose
 * the corridors are parameters. The terrain's transform is the identity, so
 * local and world positions coincide.
 */
module Terrain {
  import opened Opt
  import opened Numerics
  import opened Geometry
  import opened Grid

  /** The mesh as the renderer receives it: a copy of the vertex and triangle buffers. */
  datatype Mesh = Mesh(vertices: seq<Vec3>, triangles: seq<int>)

  /**
   * What the other components read from the terrain: its grid size and cell
   * size, the mesh's vertices (absent while there is no mesh), the spawn
   * points (absent while unset) and the tower's position (absent while no
   * tower stands).
   */
  datatype TerrainView = TerrainView(gridSize: int, cellSize: real, vertices: Option<seq<Vec3>>,
                                     spawnPoints: Option<seq<Vec3>>, tower: Option<Vec3>)

  /** The random draws that choose one corridor's start: an edge and a position along it. */
  datatype EdgePick = EdgePick(edge: int, offset: int)

  /** Number of vertices of a grid of `g` cells per side. */
  function VertexCount(g: int): int
  {
    (g + 1) * (g + 1)
  }

  /** Flat index of grid point (x, z) in the vertex buffer. */
  function VertexIndex(x: int, z: int, g: int): (k: int)
    ensures 0 <= x <= g && 0 <= z <= g ==> 0 <= k < VertexCount(g)
  {
    Index(x, z, g + 1)
  }

  /** The draws are results of `Random.Range(0, 4)` and `Random.Range(0, g)`. */
  predicate ValidPick(p: EdgePick, g: int)
  {
    InRandomRange(p.edge, 0, 4) && InRandomRange(p.offset, 0, g)
  }

  /** Flat index of the centre vertex (integer halves of the grid size). */
  function CenterIndex(g: int): (k: int)
    requires g >= 0
    ensures 0 <= k < VertexCount(g)
    ensures k / (g + 1) == g / 2 && k % (g + 1) == g / 2
  {
    IndexCoords(g / 2, g / 2, g + 1);
    VertexIndex(g / 2, g / 2, g)
  }

  /**
   * The grid point (x, z) where a corridor starts. It lies on the boundary,
   * and, because the position along the edge is drawn from [0, g), never at
   * the far corner (g, g) unless the grid has no cells.
   */
  function EdgeVertex(p: EdgePick, g: int): (v: (int, int))
    requires g >= 0 && ValidPick(p, g)
    ensures 0 <= v.0 <= g && 0 <= v.1 <= g
    ensures g >= 1 ==> ((v.0 == 0 || v.0 == g) && v.1 < g) || ((v.1 == 0 || v.1 == g) && v.0 < g)
    ensures g >= 1 ==> v != (g, g)
    ensures g == 0 ==> v == (0, 0)
  {
    if p.edge == 0 then (0, p.offset)
    else if p.edge == 1 then (g, p.offset)
    else if p.edge == 2 then (p.offset, 0)
    else (p.offset, g)
  }

  /** Every boundary vertex other than the far corner is the start of some draw. */
  lemma EdgeVertexReachable(x: int, z: int, g: int)
    requires g >= 1 && 0 <= x <= g && 0 <= z <= g
    requires x == 0 || x == g || z == 0 || z == g
    requires (x, z) != (g, g)
    ensures exists p :: ValidPick(p, g) && EdgeVertex(p, g) == (x, z)
  {
    var p := if x == 0 && z < g then EdgePick(0, z)
      else if x == g then EdgePick(1, z)
      else if z == 0 then EdgePick(2, x)
      else EdgePick(3, x);
    assert ValidPick(p, g) && EdgeVertex(p, g) == (x, z);
  }

  /** Flat index of the vertex where a corridor starts. */
  function SpawnIndex(p: EdgePick, g: int): (k: int)
    requires g >= 0 && ValidPick(p, g)
    ensures 0 <= k < VertexCount(g)
  {
    VertexIndex(EdgeVertex(p, g).0, EdgeVertex(p, g).1, g)
  }

  /**
   * The six triangle indices cell (x, z) emits: the triangles (x,z), (x,z+1),
   * (x+1,z) and (x+1,z), (x,z+1), (x+1,z+1) over the cell's own four corners,
   * all inside the vertex buffer.
   */
  function CellTriangles(x: int, z: int, g: int): (tri: seq<int>)
    requires 0 <= x < g && 0 <= z < g
    ensures tri == [VertexIndex(x, z, g), VertexIndex(x, z + 1, g), VertexIndex(x + 1, z, g),
                    VertexIndex(x + 1, z, g), VertexIndex(x, z + 1, g), VertexIndex(x + 1, z + 1, g)]
    ensures forall j :: 0 <= j < 6 ==> 0 <= tri[j] < VertexCount(g)
  {
    var i0 := z * (g + 1) + x;
    var i1 := i0 + 1;
    var i2 := i0 + (g + 1);
    var i3 := i2 + 1;
    assert i2 == VertexIndex(x, z + 1, g) by { assert (z + 1) * (g + 1) == z * (g + 1) + (g + 1); }
    [i0, i2, i1, i1, i2, i3]
  }

  /** Position in the triangle buffer of entry `j` of cell (x, z). */
  function TriSlot(x: int, z: int, j: int, g: int): (k: int)
    requires 0 <= x < g && 0 <= z < g && 0 <= j < 6
    ensures 0 <= k < g * g * 6
  {
    6 * Index(x, z, g) + j
  }

  /** Horizontal coordinates of grid point (x, z) are (x * c, z * c). */
  ghost predicate IsGrid(vs: seq<Vec3>, g: int, c: real)
  {
    g >= 0 && |vs| == VertexCount(g) &&
    forall x, z :: 0 <= x <= g && 0 <= z <= g ==>
      vs[VertexIndex(x, z, g)].x == x as real * c && vs[VertexIndex(x, z, g)].z == z as real * c
  }

  /** `after` differs from `before` only in heights, each moved weakly toward `target`. */
  ghost predicate CarvedToward(before: seq<Vec3>, after: seq<Vec3>, target: real)
  {
    |after| == |before| &&
    forall k :: 0 <= k < |before| ==>
      after[k].x == before[k].x && after[k].z == before[k].z && Between(after[k].y, before[k].y, target)
  }

  lemma CarvedTowardTransitive(a: seq<Vec3>, b: seq<Vec3>, c: seq<Vec3>, target: real)
    requires CarvedToward(a, b, target) && CarvedToward(b, c, target)
    ensures CarvedToward(a, c, target)
  {
  }

  lemma CarvingKeepsGrid(a: seq<Vec3>, b: seq<Vec3>, target: real, g: int, c: real)
    requires IsGrid(a, g, c) && CarvedToward(a, b, target)
    ensures IsGrid(b, g, c)
  {
  }

  /** The first `count` start points sit at the horizontal positions of their edge vertices in `vs`. */
  ghost predicate StartsAtEdges(starts: seq<Vec3>, vs: seq<Vec3>, picks: seq<EdgePick>, count: int, g: int)
    requires g >= 0 && 0 <= count <= |starts| && count <= |picks| && |vs| == VertexCount(g)
    requires forall q :: 0 <= q < count ==> ValidPick(picks[q], g)
  {
    forall q :: 0 <= q < count ==>
      starts[q].x == vs[SpawnIndex(picks[q], g)].x && starts[q].z == vs[SpawnIndex(picks[q], g)].z
  }

  /** Recording the start point of one more path at its edge vertex extends `StartsAtEdges`. */
  lemma StartsAtEdgesExtend(earlier: seq<Vec3>, starts: seq<Vec3>, vs: seq<Vec3>, picks: seq<EdgePick>,
                            p: int, g: int)
    requires g >= 0 && 0 <= p < |earlier| && p < |picks| && |vs| == VertexCount(g)
    requires forall q :: 0 <= q <= p ==> ValidPick(picks[q], g)
    requires StartsAtEdges(earlier, vs, picks, p, g)
    requires starts == earlier[p := vs[SpawnIndex(picks[p], g)]]
    ensures StartsAtEdges(starts, vs, picks, p + 1, g)
  {
  }

  /** Carving keeps every vertex's horizontal position, so start points stay at their edge vertices. */
  lemma StartsStayAtEdges(starts: seq<Vec3>, a: seq<Vec3>, b: seq<Vec3>, picks: seq<EdgePick>, count: int,
                          g: int, target: real)
    requires g >= 0 && 0 <= count <= |starts| && count <= |picks| && |a| == VertexCount(g)
    requires forall q :: 0 <= q < count ==> ValidPick(picks[q], g)
    requires StartsAtEdges(starts, a, picks, count, g) && CarvedToward(a, b, target)
    ensures StartsAtEdges(starts, b, picks, count, g)
  {
  }

  /** A grid coordinate scaled by the cell size and divided back rounds to itself. */
  lemma ScaledBack(k: int, c: real, w: real)
    requires c != 0.0 && w == k as real * c
    ensures RoundToInt(w / c) == k
  {
    assert w / c == k as real;
  }

  /**
   * A point at the horizontal position of a corridor's edge vertex rounds
   * back to that vertex's grid coordinates.
   */
  lemma SnapRecoversGridPoint(pick: EdgePick, g: int, c: real, vs: seq<Vec3>, world: Vec3)
    requires g >= 0 && c != 0.0 && ValidPick(pick, g) && IsGrid(vs, g, c)
    requires world.x == vs[SpawnIndex(pick, g)].x && world.z == vs[SpawnIndex(pick, g)].z
    ensures RoundToInt(world.x / c) == EdgeVertex(pick, g).0
    ensures RoundToInt(world.z / c) == EdgeVertex(pick, g).1
  {
    var v := EdgeVertex(pick, g);
    assert SpawnIndex(pick, g) == VertexIndex(v.0, v.1, g);
    GridVertexSnaps(vs, g, c, v.0, v.1);
  }

  /** Each grid vertex's horizontal position, divided by the cell size, rounds to its grid coordinates. */
  lemma GridVertexSnaps(vs: seq<Vec3>, g: int, c: real, x: int, z: int)
    requires c != 0.0 && IsGrid(vs, g, c) && 0 <= x <= g && 0 <= z <= g
    ensures RoundToInt(vs[VertexIndex(x, z, g)].x / c) == x
    ensures RoundToInt(vs[VertexIndex(x, z, g)].z / c) == z
  {
    var k := VertexIndex(x, z, g);
    ScaledBack(x, c, vs[k].x);
    ScaledBack(z, c, vs[k].z);
  }

  /** The vertex of grid point (x, z): horizontal position (x * c, z * c) at the noise height. */
  function GridPoint(x: int, z: int, c: real, noise: (int, int) -> real): Vec3
  {
    Vec3(x as real * c, noise(x, z), z as real * c)
  }

  /**
   * Fills the vertex buffer row by row with a running counter: grid point
   * (x, z) is stored at `z * (g + 1) + x`, at horizontal position (x * c, z * c)
   * and at the noise height given for it.
   */
  method BuildVertices(g: int, c: real, noise: (int, int) -> real) returns (verts: array<Vec3>)
    requires g >= 0
    ensures fresh(verts) && verts.Length == VertexCount(g)
    ensures forall x, z :: 0 <= x <= g && 0 <= z <= g ==>
      verts[VertexIndex(x, z, g)] == GridPoint(x, z, c, noise)
  {
    var n := g + 1;
    verts := new Vec3[n * n];
    var i := 0;
    for z := 0 to n
      invariant i == z * n
      invariant PointsFilled(verts, n, c, noise, 0, z)
    {
      for x := 0 to n
        invariant i == Index(x, z, n)
        invariant PointsFilled(verts, n, c, noise, x, z)
      {
        SetPoint(verts, n, c, noise, x, z, i);
        i := i + 1;
      }
      assert z * n + n == (z + 1) * n;
    }
    forall x, z | 0 <= x <= g && 0 <= z <= g
      ensures verts[VertexIndex(x, z, g)] == GridPoint(x, z, c, noise)
    {
      assert VertexIndex(x, z, g) == Index(x, z, n);
    }
  }

  /** Every grid point before (x, z) in row order holds its vertex. */
  ghost predicate PointsFilled(verts: array<Vec3>, n: int, c: real, noise: (int, int) -> real, x: int, z: int)
    reads verts
  {
    && verts.Length == n * n
    && forall x0, z0 :: 0 <= x0 < n && 0 <= z0 < n && (z0 < z || (z0 == z && x0 < x)) ==>
         verts[Index(x0, z0, n)] == GridPoint(x0, z0, c, noise)
  }

  /** Stores the vertex of grid point (x, z) at the fill counter, which stands at its index. */
  method SetPoint(verts: array<Vec3>, n: int, c: real, noise: (int, int) -> real, x: int, z: int, i: int)
    requires 0 <= x < n && 0 <= z < n && i == Index(x, z, n)
    requires PointsFilled(verts, n, c, noise, x, z)
    modifies verts
    ensures PointsFilled(verts, n, c, noise, x + 1, z)
  {
    forall x0, z0 | 0 <= x0 < n && 0 <= z0 < n && (z0 < z || (z0 == z && x0 < x))
      ensures Index(x0, z0, n) < Index(x, z, n)
    {
      IndexOrder(x0, z0, x, z, n);
    }
    verts[i] := GridPoint(x, z, c, noise);
  }

  /**
   * Fills the triangle buffer cell by cell with a running counter that ends
   * exactly at the buffer's length `g * g * 6`; every entry indexes a vertex.
   */
  method BuildTriangles(g: int) returns (tris: array<int>)
    requires g >= 0
    ensures fresh(tris) && tris.Length == g * g * 6
    ensures forall x, z, j :: 0 <= x < g && 0 <= z < g && 0 <= j < 6 ==>
      tris[TriSlot(x, z, j, g)] == CellTriangles(x, z, g)[j]
    ensures forall k :: 0 <= k < tris.Length ==> 0 <= tris[k] < VertexCount(g)
  {
    tris := new int[g * g * 6];
    var t := 0;
    for z := 0 to g
      invariant t == 6 * (z * g)
      invariant CellsFilled(tris, g, 0, z)
    {
      for x := 0 to g
        invariant t == 6 * Index(x, z, g)
        invariant CellsFilled(tris, g, x, z)
      {
        t := FillCell(tris, g, x, z, t);
      }
      assert z * g + g == (z + 1) * g;
    }
    forall k | 0 <= k < tris.Length
      ensures 0 <= tris[k] < VertexCount(g)
    {
      var x, z, j := SlotCell(k, g);
    }
  }

  /** Every cell before (x, z) in row order holds its two triangles. */
  ghost predicate CellsFilled(tris: array<int>, g: int, x: int, z: int)
    reads tris
  {
    && tris.Length == g * g * 6
    && forall x0, z0, j :: 0 <= x0 < g && 0 <= z0 < g && 0 <= j < 6 && (z0 < z || (z0 == z && x0 < x)) ==>
         tris[TriSlot(x0, z0, j, g)] == CellTriangles(x0, z0, g)[j]
  }

  /** Writes cell (x, z) at the fill counter, which stands at the cell's first slot. */
  method FillCell(tris: array<int>, g: int, x: int, z: int, t: int) returns (t': int)
    requires 0 <= x < g && 0 <= z < g && t == 6 * Index(x, z, g)
    requires CellsFilled(tris, g, x, z)
    modifies tris
    ensures t' == t + 6 && CellsFilled(tris, g, x + 1, z)
  {
    forall x0, z0 | 0 <= x0 < g && 0 <= z0 < g && (z0 < z || (z0 == z && x0 < x))
      ensures Index(x0, z0, g) < Index(x, z, g)
    {
      IndexOrder(x0, z0, x, z, g);
    }
    var cell := CellTriangles(x, z, g);
    assert forall j :: 0 <= j < 6 ==> TriSlot(x, z, j, g) == t + j;
    t' := EmitCell(tris, t, cell[0], cell[1], cell[2], cell[5]);
  }

  /**
   * Writes one cell's two triangles (i0, i2, i1) and (i1, i2, i3) at the fill
   * counter and returns the advanced counter.
   */
  method EmitCell(tris: array<int>, t: int, i0: int, i2: int, i1: int, i3: int) returns (t': int)
    requires 0 <= t && t + 6 <= tris.Length
    modifies tris
    ensures t' == t + 6
    ensures tris[t..t'] == [i0, i2, i1, i1, i2, i3]
    ensures forall k :: 0 <= k < tris.Length && !(t <= k < t') ==> tris[k] == old(tris[k])
  {
    t' := t;
    tris[t'] := i0; t' := t' + 1;
    tris[t'] := i2; t' := t' + 1;
    tris[t'] := i1; t' := t' + 1;
    tris[t'] := i1; t' := t' + 1;
    tris[t'] := i2; t' := t' + 1;
    tris[t'] := i3; t' := t' + 1;
  }

  /** Every position of the triangle buffer is entry j of some cell (x, z). */
  lemma SlotCell(k: int, g: int) returns (x: int, z: int, j: int)
    requires g >= 0 && 0 <= k < g * g * 6
    ensures 0 <= x < g && 0 <= z < g && 0 <= j < 6 && TriSlot(x, z, j, g) == k
  {
    var gg := g * g;
    var c := k / 6;
    j := k % 6;
    assert k == 6 * c + j;
    assert c < gg;
    x, z := IndexOf(c, g);
  }


  /** The sample's own vertex, pulled down to at most `targetY`; any other vertex as it is. */
  function Pinned(v: Vec3, x: int, z: int, ix: int, iz: int, targetY: real): Vec3
  {
    if x == ix && z == iz then v.(y := MinReal(v.y, targetY)) else v
  }

  /** A vertex blended 60% of the way toward `targetY`. */
  function Blended(v: Vec3, targetY: real): Vec3
  {
    v.(y := Lerp(v.y, targetY, 0.6))
  }

  /** (x, z) lies in the square of the given radius around (ix, iz); a negative radius gives no square. */
  predicate InSquare(x: int, z: int, ix: int, iz: int, radius: int)
  {
    ix - radius <= x <= ix + radius && iz - radius <= z <= iz + radius
  }

  /** Vertex v of grid point (x, z) after one corridor sample at (ix, iz). */
  function SampleCarved(v: Vec3, x: int, z: int, ix: int, iz: int, targetY: real, radius: int): Vec3
  {
    var v0 := Pinned(v, x, z, ix, iz, targetY);
    if InSquare(x, z, ix, iz, radius) then Blended(v0, targetY) else v0
  }

  /**
   * The square's columns before `ix + dx` are blended, and so is column
   * `ix + dx` below `iz + dz`.
   */
  predicate BlendedSoFar(x: int, z: int, ix: int, iz: int, radius: int, dx: int, dz: int)
  {
    (ix - radius <= x < ix + dx && iz - radius <= z <= iz + radius)
    || (x == ix + dx && iz - radius <= z < iz + dz)
  }

  /** Vertex v of grid point (x, z) once the neighbourhood loops have reached (dx, dz). */
  function Progress(v: Vec3, x: int, z: int, ix: int, iz: int, targetY: real, radius: int, dx: int, dz: int): Vec3
  {
    var v0 := Pinned(v, x, z, ix, iz, targetY);
    if BlendedSoFar(x, z, ix, iz, radius, dx, dz) then Blended(v0, targetY) else v0
  }

  /** Every grid vertex is pinned, and blended as well when the neighbourhood loops have reached it. */
  ghost predicate SquareProgress(vs: seq<Vec3>, before: seq<Vec3>, n: int, ix: int, iz: int,
                                 targetY: real, radius: int, dx: int, dz: int)
  {
    |vs| == n * n && |before| == n * n &&
    forall x, z :: 0 <= x < n && 0 <= z < n ==>
      vs[Index(x, z, n)] == Progress(before[Index(x, z, n)], x, z, ix, iz, targetY, radius, dx, dz)
  }

  /** Blending the vertex the inner loop stands at moves the loop on by one. */
  lemma ProgressBlend(a: seq<Vec3>, b: seq<Vec3>, before: seq<Vec3>, n: int, ix: int, iz: int,
                      targetY: real, radius: int, dx: int, dz: int)
    requires SquareProgress(a, before, n, ix, iz, targetY, radius, dx, dz)
    requires -radius <= dz && 0 <= ix + dx < n && 0 <= iz + dz < n
    requires b == a[Index(ix + dx, iz + dz, n) := Blended(a[Index(ix + dx, iz + dz, n)], targetY)]
    ensures SquareProgress(b, before, n, ix, iz, targetY, radius, dx, dz + 1)
  {
    forall x, z | 0 <= x < n && 0 <= z < n
      ensures b[Index(x, z, n)] == Progress(before[Index(x, z, n)], x, z, ix, iz, targetY, radius, dx, dz + 1)
    {
      var k := Index(x, z, n);
      if x != ix + dx || z != iz + dz {
        IndexInjective(x, z, ix + dx, iz + dz, n);
        assert b[k] == a[k];
        assert a[k] == Progress(before[k], x, z, ix, iz, targetY, radius, dx, dz);
        assert BlendedSoFar(x, z, ix, iz, radius, dx, dz) == BlendedSoFar(x, z, ix, iz, radius, dx, dz + 1);
      } else {
        assert a[k] == Progress(before[k], x, z, ix, iz, targetY, radius, dx, dz);
        assert !BlendedSoFar(x, z, ix, iz, radius, dx, dz) && BlendedSoFar(x, z, ix, iz, radius, dx, dz + 1);
        assert b[k] == Blended(a[k], targetY);
      }
    }
  }

  /** Skipping a point outside the grid moves the inner loop on by one. */
  lemma ProgressSkip(a: seq<Vec3>, before: seq<Vec3>, n: int, ix: int, iz: int,
                     targetY: real, radius: int, dx: int, dz: int)
    requires SquareProgress(a, before, n, ix, iz, targetY, radius, dx, dz)
    requires !(0 <= ix + dx < n && 0 <= iz + dz < n)
    ensures SquareProgress(a, before, n, ix, iz, targetY, radius, dx, dz + 1)
  {
  }

  /** A finished column of the square is the start of the next one. */
  lemma ProgressNextColumn(a: seq<Vec3>, before: seq<Vec3>, n: int, ix: int, iz: int,
                           targetY: real, radius: int, dx: int)
    requires -radius <= dx
    requires SquareProgress(a, before, n, ix, iz, targetY, radius, dx, radius + 1)
    ensures SquareProgress(a, before, n, ix, iz, targetY, radius, dx + 1, -radius)
  {
  }

  /** Carving one sample moves every height toward `targetY` and leaves the sampled vertex at or below it. */
  lemma SampleCarvedToward(before: seq<Vec3>, after: seq<Vec3>, n: int, ix: int, iz: int,
                           targetY: real, radius: int)
    requires n >= 0 && |before| == n * n && |after| == n * n
    requires forall x, z :: 0 <= x < n && 0 <= z < n ==>
               after[Index(x, z, n)] == SampleCarved(before[Index(x, z, n)], x, z, ix, iz, targetY, radius)
    ensures CarvedToward(before, after, targetY)
    ensures 0 <= ix < n && 0 <= iz < n ==> after[Index(ix, iz, n)].y <= targetY
  {
    forall k | 0 <= k < |before|
      ensures after[k].x == before[k].x && after[k].z == before[k].z && Between(after[k].y, before[k].y, targetY)
    {
      var x, z := IndexOf(k, n);
      var v0 := Pinned(before[k], x, z, ix, iz, targetY);
      assert Between(v0.y, before[k].y, targetY);
      if InSquare(x, z, ix, iz, radius) {
        assert Between(Blended(v0, targetY).y, v0.y, targetY);
      }
    }
  }

  /**
   * One corridor sample at grid point (ix, iz): pull that vertex down to at
   * most `targetY`, then blend every in-bounds vertex of the square
   * neighbourhood of the given radius 60% of the way toward `targetY`.
   * Every vertex outside that square other than the sample's own keeps its
   * value.
   */
  method CarveSample(verts: array<Vec3>, n: int, ix: int, iz: int, targetY: real, radius: int)
    requires verts.Length == n * n && 0 <= ix < n && 0 <= iz < n
    modifies verts
    ensures forall x, z :: 0 <= x < n && 0 <= z < n ==>
              verts[Index(x, z, n)] == SampleCarved(old(verts[Index(x, z, n)]), x, z, ix, iz, targetY, radius)
    ensures forall x, z :: 0 <= x < n && 0 <= z < n && !InSquare(x, z, ix, iz, radius) && (x != ix || z != iz) ==>
              verts[Index(x, z, n)] == old(verts[Index(x, z, n)])
    ensures CarvedToward(old(verts[..]), verts[..], targetY)
    ensures verts[Index(ix, iz, n)].y <= targetY
  {
    var idx := Index(ix, iz, n);
    verts[idx] := verts[idx].(y := MinReal(verts[idx].y, targetY));
    forall x, z | 0 <= x < n && 0 <= z < n && (x != ix || z != iz)
      ensures verts[Index(x, z, n)] == old(verts[Index(x, z, n)])
    {
      IndexInjective(x, z, ix, iz, n);
    }
    assert SquareProgress(verts[..], old(verts[..]), n, ix, iz, targetY, radius, -radius, -radius);
    var dx := -radius;
    while dx <= radius
      invariant -radius <= dx && (dx <= radius + 1 || dx == -radius)
      invariant SquareProgress(verts[..], old(verts[..]), n, ix, iz, targetY, radius, dx, -radius)
    {
      var dz := -radius;
      while dz <= radius
        invariant -radius <= dz <= radius + 1
        invariant SquareProgress(verts[..], old(verts[..]), n, ix, iz, targetY, radius, dx, dz)
      {
        var nx := ix + dx;
        var nz := iz + dz;
        if !(nx < 0 || nz < 0 || nx >= n || nz >= n) {
          var nIdx := Index(nx, nz, n);
          ghost var a := verts[..];
          verts[nIdx] := verts[nIdx].(y := Lerp(verts[nIdx].y, targetY, 0.6));
          ProgressBlend(a, verts[..], old(verts[..]), n, ix, iz, targetY, radius, dx, dz);
        } else {
          ProgressSkip(verts[..], old(verts[..]), n, ix, iz, targetY, radius, dx, dz);
        }
        dz := dz + 1;
      }
      ProgressNextColumn(verts[..], old(verts[..]), n, ix, iz, targetY, radius, dx);
      dx := dx + 1;
    }
    SampleCarvedToward(old(verts[..]), verts[..], n, ix, iz, targetY, radius);
  }

  /**
   * The grid point a corridor sample lands on: sample `s` of `steps` lies at
   * fraction `s / steps` of the way from (fromX, fromZ) to (toX, toZ), and is
   * rounded to the nearest grid point, if that point lies inside the grid of
   * `n` points per side.
   */
  ghost function SampleCell(fromX: real, fromZ: real, toX: real, toZ: real,
                            c: real, steps: int, s: int, n: int): Option<(int, int)>
    requires c != 0.0 && steps >= 1
  {
    var t := s as real / steps as real;
    var ix := RoundToInt(Lerp(fromX, toX, t) / c);
    var iz := RoundToInt(Lerp(fromZ, toZ, t) / c);
    if ix < 0 || iz < 0 || ix >= n || iz >= n then None else Some((ix, iz))
  }

  /** Every in-bounds sample of the corridor from (fromX, fromZ) to (toX, toZ) lies at or below `target`. */
  ghost predicate CorridorCarved(vs: seq<Vec3>, n: int, fromX: real, fromZ: real, toX: real, toZ: real,
                                 c: real, steps: int, target: real)
    requires c != 0.0 && steps >= 1
  {
    |vs| == n * n &&
    forall s :: 0 <= s <= steps && SampleCell(fromX, fromZ, toX, toZ, c, steps, s, n).Some? ==>
      vs[Index(SampleCell(fromX, fromZ, toX, toZ, c, steps, s, n).value.0,
               SampleCell(fromX, fromZ, toX, toZ, c, steps, s, n).value.1, n)].y <= target
  }

  /**
   * Grid point (x, z) lies outside the square of the given radius around
   * every in-bounds sample among the first `count` of the corridor, and is
   * none of those samples.
   */
  ghost predicate OffSamples(x: int, z: int, fromX: real, fromZ: real, toX: real, toZ: real,
                             c: real, steps: int, count: int, n: int, radius: int)
    requires c != 0.0 && steps >= 1
  {
    forall s :: 0 <= s < count && SampleCell(fromX, fromZ, toX, toZ, c, steps, s, n).Some? ==>
      var cell := SampleCell(fromX, fromZ, toX, toZ, c, steps, s, n).value;
      !InSquare(x, z, cell.0, cell.1, radius) && (x != cell.0 || z != cell.1)
  }

  /** Every vertex off the first `count` samples of the corridor is as in `before`. */
  ghost predicate KeptOffCorridor(before: seq<Vec3>, after: seq<Vec3>, n: int, fromX: real, fromZ: real,
                                  toX: real, toZ: real, c: real, steps: int, count: int, radius: int)
    requires c != 0.0 && steps >= 1 && |before| == n * n && |after| == n * n
  {
    forall x, z ::
      (0 <= x < n && 0 <= z < n && OffSamples(x, z, fromX, fromZ, toX, toZ, c, steps, count, n, radius)) ==>
      after[Index(x, z, n)] == before[Index(x, z, n)]
  }

  /** Moving heights toward `target` keeps a height that is already at or below it there. */
  lemma CarvedStaysBelow(a: seq<Vec3>, b: seq<Vec3>, target: real)
    requires CarvedToward(a, b, target)
    ensures forall k :: 0 <= k < |a| && a[k].y <= target ==> b[k].y <= target
  {
  }

  /** A carved corridor stays carved while further carving moves heights toward the same target. */
  lemma CorridorStaysCarved(a: seq<Vec3>, b: seq<Vec3>, n: int, fromX: real, fromZ: real,
                            toX: real, toZ: real, c: real, steps: int, target: real)
    requires c != 0.0 && steps >= 1
    requires CorridorCarved(a, n, fromX, fromZ, toX, toZ, c, steps, target)
    requires CarvedToward(a, b, target)
    ensures CorridorCarved(b, n, fromX, fromZ, toX, toZ, c, steps, target)
  {
    CarvedStaysBelow(a, b, target);
  }

  /**
   * The corridors of the first `count` paths of a grid of `g` cells per side
   * are carved: each runs from the horizontal position of its start point to
   * the tower's, in `Max(30, g)` steps, at or below `target`.
   */
  ghost predicate PathsCarved(vs: seq<Vec3>, g: int, c: real, starts: seq<Vec3>, count: int,
                              tower: Vec3, target: real)
    requires c != 0.0 && 0 <= count <= |starts|
  {
    forall q :: 0 <= q < count ==>
      CorridorCarved(vs, g + 1, starts[q].x, starts[q].z, tower.x, tower.z, c, Max(30, g), target)
  }

  /** Only the horizontal positions of the start points matter. */
  lemma PathsCarvedSameStarts(vs: seq<Vec3>, g: int, c: real, starts: seq<Vec3>, starts': seq<Vec3>,
                              count: int, tower: Vec3, target: real)
    requires c != 0.0 && 0 <= count <= |starts| && count <= |starts'|
    requires PathsCarved(vs, g, c, starts, count, tower, target)
    requires forall q :: 0 <= q < count ==> starts'[q].x == starts[q].x && starts'[q].z == starts[q].z
    ensures PathsCarved(vs, g, c, starts', count, tower, target)
  {
    forall q | 0 <= q < count
      ensures CorridorCarved(vs, g + 1, starts'[q].x, starts'[q].z, tower.x, tower.z, c, Max(30, g), target)
    {
      assert starts'[q].x == starts[q].x && starts'[q].z == starts[q].z;
    }
  }

  /** One more carved corridor extends the carved paths by one. */
  lemma PathsCarvedExtend(vs: seq<Vec3>, g: int, c: real, starts: seq<Vec3>, count: int,
                          tower: Vec3, target: real)
    requires c != 0.0 && 0 <= count < |starts|
    requires PathsCarved(vs, g, c, starts, count, tower, target)
    requires CorridorCarved(vs, g + 1, starts[count].x, starts[count].z, tower.x, tower.z, c, Max(30, g), target)
    ensures PathsCarved(vs, g, c, starts, count + 1, tower, target)
  {
  }

  /** Carved paths stay carved while further carving moves heights toward the same target. */
  lemma PathsStayCarved(a: seq<Vec3>, b: seq<Vec3>, g: int, c: real, starts: seq<Vec3>, count: int,
                        tower: Vec3, target: real)
    requires c != 0.0 && 0 <= count <= |starts|
    requires PathsCarved(a, g, c, starts, count, tower, target)
    requires CarvedToward(a, b, target)
    ensures PathsCarved(b, g, c, starts, count, tower, target)
  {
    forall q | 0 <= q < count
      ensures CorridorCarved(b, g + 1, starts[q].x, starts[q].z, tower.x, tower.z, c, Max(30, g), target)
    {
      CorridorStaysCarved(a, b, g + 1, starts[q].x, starts[q].z, tower.x, tower.z, c, Max(30, g), target);
    }
  }

  /**
   * Grid point (x, z) of a grid of `g` cells per side lies off the corridors
   * of the first `count` paths: outside the square of the given radius around
   * every sample of each.
   */
  ghost predicate OffPaths(x: int, z: int, g: int, c: real, starts: seq<Vec3>, count: int,
                           tower: Vec3, radius: int)
    requires c != 0.0 && 0 <= count <= |starts|
  {
    forall q :: 0 <= q < count ==>
      OffSamples(x, z, starts[q].x, starts[q].z, tower.x, tower.z, c, Max(30, g), Max(30, g) + 1, g + 1, radius)
  }

  /** Every vertex off the first `count` paths' corridors is as in `original`. */
  ghost predicate KeptOffPaths(vs: seq<Vec3>, original: seq<Vec3>, g: int, c: real, starts: seq<Vec3>,
                               count: int, tower: Vec3, radius: int)
    requires c != 0.0 && 0 <= count <= |starts|
    requires |vs| == VertexCount(g) && |original| == VertexCount(g)
  {
    forall x, z :: 0 <= x <= g && 0 <= z <= g && OffPaths(x, z, g, c, starts, count, tower, radius) ==>
      vs[VertexIndex(x, z, g)] == original[VertexIndex(x, z, g)]
  }

  /** Only the horizontal positions of the start points matter. */
  lemma KeptOffPathsSameStarts(vs: seq<Vec3>, original: seq<Vec3>, g: int, c: real, starts: seq<Vec3>,
                               starts': seq<Vec3>, count: int, tower: Vec3, radius: int)
    requires c != 0.0 && 0 <= count <= |starts| && count <= |starts'|
    requires |vs| == VertexCount(g) && |original| == VertexCount(g)
    requires KeptOffPaths(vs, original, g, c, starts, count, tower, radius)
    requires forall q :: 0 <= q < count ==> starts'[q].x == starts[q].x && starts'[q].z == starts[q].z
    ensures KeptOffPaths(vs, original, g, c, starts', count, tower, radius)
  {
    forall x, z | 0 <= x <= g && 0 <= z <= g && OffPaths(x, z, g, c, starts', count, tower, radius)
      ensures vs[VertexIndex(x, z, g)] == original[VertexIndex(x, z, g)]
    {
      forall q | 0 <= q < count
        ensures OffSamples(x, z, starts[q].x, starts[q].z, tower.x, tower.z, c, Max(30, g), Max(30, g) + 1, g + 1, radius)
      {
        assert starts'[q].x == starts[q].x && starts'[q].z == starts[q].z;
      }
    }
  }

  /**
   * A further corridor that leaves alone every vertex off its own samples
   * extends the untouched region's guarantee to one more path.
   */
  lemma KeptOffPathsExtend(before: seq<Vec3>, after: seq<Vec3>, original: seq<Vec3>, g: int, c: real,
                           starts: seq<Vec3>, count: int, tower: Vec3, radius: int)
    requires c != 0.0 && 0 <= count < |starts|
    requires |before| == VertexCount(g) && |after| == VertexCount(g) && |original| == VertexCount(g)
    requires KeptOffPaths(before, original, g, c, starts, count, tower, radius)
    requires KeptOffCorridor(before, after, g + 1, starts[count].x, starts[count].z, tower.x, tower.z, c,
                             Max(30, g), Max(30, g) + 1, radius)
    ensures KeptOffPaths(after, original, g, c, starts, count + 1, tower, radius)
  {
    forall x, z | 0 <= x <= g && 0 <= z <= g && OffPaths(x, z, g, c, starts, count + 1, tower, radius)
      ensures after[VertexIndex(x, z, g)] == original[VertexIndex(x, z, g)]
    {
      assert OffPaths(x, z, g, c, starts, count, tower, radius);
      assert OffSamples(x, z, starts[count].x, starts[count].z, tower.x, tower.z, c,
                        Max(30, g), Max(30, g) + 1, g + 1, radius);
    }
  }

  /**
   * The state after carving the first `p` paths out of `original`: heights
   * have only moved toward `target`, the start points sit at their edge
   * vertices, each corridor so far is carved, and every vertex off all of
   * them is still as in `original`.
   */
  ghost predicate CarvedSoFar(vs: seq<Vec3>, original: seq<Vec3>, g: int, c: real, starts: seq<Vec3>,
                              picks: seq<EdgePick>, p: int, tower: Vec3, target: real, radius: int)
    requires g >= 0 && c != 0.0 && 0 <= p <= |starts| && p <= |picks|
    requires forall q :: 0 <= q < p ==> ValidPick(picks[q], g)
  {
    |vs| == VertexCount(g) && |original| == VertexCount(g) &&
    CarvedToward(original, vs, target) && IsGrid(vs, g, c) && (p == 0 ==> vs == original) &&
    StartsAtEdges(starts, vs, picks, p, g) &&
    PathsCarved(vs, g, c, starts, p, tower, target) &&
    KeptOffPaths(vs, original, g, c, starts, p, tower, radius)
  }

  /**
   * Recording path `p`'s start point at its edge vertex and carving its
   * corridor extends `CarvedSoFar` by one path.
   */
  lemma CarvedPathStep(original: seq<Vec3>, before: seq<Vec3>, after: seq<Vec3>, g: int, c: real,
                       earlier: seq<Vec3>, starts: seq<Vec3>, picks: seq<EdgePick>, p: int, start: Vec3,
                       tower: Vec3, target: real, radius: int, n: int, steps: int, to: Vec3, towerY: real)
    requires g >= 0 && c != 0.0 && 0 <= p < |earlier| && p < |picks|
    requires n == g + 1 && steps == Max(30, g) && to == tower && target == towerY - 0.1
    requires forall q :: 0 <= q <= p ==> ValidPick(picks[q], g)
    requires CarvedSoFar(before, original, g, c, earlier, picks, p, tower, target, radius)
    requires start == before[SpawnIndex(picks[p], g)] && starts == earlier[p := start]
    requires CarvedToward(before, after, towerY - 0.1)
    requires CorridorCarved(after, n, start.x, start.z, to.x, to.z, c, steps, towerY - 0.1)
    requires KeptOffCorridor(before, after, n, start.x, start.z, to.x, to.z, c, steps, steps + 1, radius)
    ensures CarvedSoFar(after, original, g, c, starts, picks, p + 1, tower, target, radius)
  {
    StartsAtEdgesExtend(earlier, starts, before, picks, p, g);
    StartsStayAtEdges(starts, before, after, picks, p + 1, g, target);
    CarvedTowardTransitive(original, before, after, target);
    CarvingKeepsGrid(original, after, target, g, c);
    PathsCarvedSameStarts(before, g, c, earlier, starts, p, tower, target);
    KeptOffPathsSameStarts(before, original, g, c, earlier, starts, p, tower, radius);
    PathsStayCarved(before, after, g, c, starts, p, tower, target);
    PathsCarvedExtend(after, g, c, starts, p, tower, target);
    KeptOffPathsExtend(before, after, original, g, c, starts, p, tower, radius);
  }

  /**
   * Walks `steps + 1` evenly spaced samples from `from` to `to` (fractions
   * 0 to 1 inclusive), rounds each to a grid point and carves the in-bounds
   * ones toward the tower height less 0.1.
   */
  method CarveCorridor(verts: array<Vec3>, n: int, from: Vec3, to: Vec3, c: real,
                       steps: int, towerY: real, pathWidth: real)
    requires verts.Length == n * n && c != 0.0 && steps >= 1
    modifies verts
    ensures CarvedToward(old(verts[..]), verts[..], towerY - 0.1)
    ensures CorridorCarved(verts[..], n, from.x, from.z, to.x, to.z, c, steps, towerY - 0.1)
    ensures KeptOffCorridor(old(verts[..]), verts[..], n, from.x, from.z, to.x, to.z, c, steps, steps + 1,
                            CeilToInt(pathWidth))
  {
    for s := 0 to steps + 1
      invariant CarvedToward(old(verts[..]), verts[..], towerY - 0.1)
      invariant forall x, z ::
                  (0 <= x < n && 0 <= z < n &&
                   OffSamples(x, z, from.x, from.z, to.x, to.z, c, steps, s, n, CeilToInt(pathWidth))) ==>
                  verts[Index(x, z, n)] == old(verts[Index(x, z, n)])
      invariant forall s' :: 0 <= s' < s && SampleCell(from.x, from.z, to.x, to.z, c, steps, s', n).Some? ==>
        verts[Index(SampleCell(from.x, from.z, to.x, to.z, c, steps, s', n).value.0,
                    SampleCell(from.x, from.z, to.x, to.z, c, steps, s', n).value.1, n)].y <= towerY - 0.1
    {
      var t := s as real / steps as real;
      var sampleWorld := LerpVec(from, to, t);
      var ix := RoundToInt(sampleWorld.x / c);
      var iz := RoundToInt(sampleWorld.z / c);
      assert SampleCell(from.x, from.z, to.x, to.z, c, steps, s, n) ==
        if ix < 0 || iz < 0 || ix >= n || iz >= n then None else Some((ix, iz));
      if !(ix < 0 || iz < 0 || ix >= n || iz >= n) {
        var targetY := towerY - 0.1;
        var radius := CeilToInt(pathWidth);
        ghost var before := verts[..];
        CarveSample(verts, n, ix, iz, targetY, radius);
        CarvedTowardTransitive(old(verts[..]), before, verts[..], targetY);
        CarvedStaysBelow(before, verts[..], targetY);
      }
    }
  }

  class ProceduralTerrain {
    const gridSize: int
    const cellSize: real
    const numberOfPaths: int
    const pathWidth: real
    /** Whether a tower prefab is assigned. */
    const hasTowerPrefab: bool

    var spawnPoints: seq<Vec3>
    var mesh: Option<Mesh>
    /** Position of the tower instance, if one has been placed. */
    var tower: Option<Vec3>

    constructor(gridSize: int, cellSize: real, numberOfPaths: int, pathWidth: real, hasTowerPrefab: bool)
      ensures this.gridSize == gridSize && this.cellSize == cellSize
      ensures this.numberOfPaths == numberOfPaths && this.pathWidth == pathWidth
      ensures this.hasTowerPrefab == hasTowerPrefab
      ensures spawnPoints == [] && mesh == None && tower == None
    {
      this.gridSize := gridSize;
      this.cellSize := cellSize;
      this.numberOfPaths := numberOfPaths;
      this.pathWidth := pathWidth;
      this.hasTowerPrefab := hasTowerPrefab;
      spawnPoints := [];
      mesh := None;
      tower := None;
    }

    /** The terrain as the spawner and the defender manager see it. */
    function View(): (v: TerrainView)
      reads this
      ensures v.vertices.Some? <==> mesh.Some?
    {
      TerrainView(gridSize, cellSize, if mesh.Some? then Some(mesh.value.vertices) else None,
                  Some(spawnPoints), tower)
    }

    /** The configuration under which generation runs to completion. */
    predicate Configured(picks: seq<EdgePick>)
    {
      gridSize >= 0 && cellSize != 0.0 && numberOfPaths >= 0 && |picks| == numberOfPaths &&
      forall p :: 0 <= p < |picks| ==> ValidPick(picks[p], gridSize)
    }

    /**
     * Carves one corridor per draw and snaps the spawn points. Afterwards
     * there is one spawn point per path, each equal to the post-carve vertex
     * of its edge point; every vertex keeps its horizontal position and has
     * moved only toward the fixed target height (the pre-carve centre height
     * less 0.1); with no paths nothing changes.
     */
    method CarvePaths(verts: array<Vec3>, picks: seq<EdgePick>)
      requires Configured(picks) && IsGrid(verts[..], gridSize, cellSize) && mesh.Some?
      modifies this`spawnPoints, this`mesh, verts
      ensures |spawnPoints| == numberOfPaths
      ensures CarvedToward(old(verts[..]), verts[..], old(verts[CenterIndex(gridSize)]).y - 0.1)
      ensures numberOfPaths == 0 ==> verts[..] == old(verts[..])
      ensures forall p :: 0 <= p < numberOfPaths ==> spawnPoints[p] == verts[SpawnIndex(picks[p], gridSize)]
      ensures PathsCarved(verts[..], gridSize, cellSize, spawnPoints, numberOfPaths,
                          old(verts[CenterIndex(gridSize)]), old(verts[CenterIndex(gridSize)]).y - 0.1)
      ensures KeptOffPaths(verts[..], old(verts[..]), gridSize, cellSize, spawnPoints, numberOfPaths,
                           old(verts[CenterIndex(gridSize)]), CeilToInt(pathWidth))
      ensures mesh == Some(Mesh(verts[..], old(mesh).value.triangles))
    {
      var vertsPerRow := gridSize + 1;
      spawnPoints := seq(numberOfPaths, _ => Vec3(0.0, 0.0, 0.0));
      var towerLocal := verts[CenterIndex(gridSize)];
      var towerWorld := towerLocal;
      ghost var targetY := towerLocal.y - 0.1;
      ghost var original := verts[..];

      for p := 0 to numberOfPaths
        modifies this`spawnPoints, verts
        invariant |spawnPoints| == numberOfPaths
        invariant CarvedSoFar(verts[..], original, gridSize, cellSize, spawnPoints, picks, p, towerLocal,
                              targetY, CeilToInt(pathWidth))
      {
        var (vx, vz) := EdgeVertex(picks[p], gridSize);
        var spawnIndex := Index(vx, vz, vertsPerRow);
        var spawnLocal := verts[spawnIndex];
        var spawnWorld := spawnLocal;
        ghost var earlier := spawnPoints;
        spawnPoints := spawnPoints[p := spawnWorld];

        var steps := Max(30, gridSize);
        ghost var before := verts[..];
        CarveCorridor(verts, vertsPerRow, spawnWorld, towerWorld, cellSize, steps, towerLocal.y, pathWidth);
        CarvedPathStep(original, before, verts[..], gridSize, cellSize, earlier, spawnPoints, picks, p,
                       spawnWorld, towerLocal, targetY, CeilToInt(pathWidth),
                       vertsPerRow, steps, towerWorld, towerLocal.y);
      }

      ghost var unsnapped := spawnPoints;
      SnapSpawnPoints(verts, picks);
      PathsCarvedSameStarts(verts[..], gridSize, cellSize, unsnapped, spawnPoints, numberOfPaths, towerLocal, targetY);
      KeptOffPathsSameStarts(verts[..], original, gridSize, cellSize, unsnapped, spawnPoints, numberOfPaths,
                             towerLocal, CeilToInt(pathWidth));

      mesh := Some(Mesh(verts[..], mesh.value.triangles));
    }

    /**
     * Snaps every spawn point to the vertex at its rounded grid coordinates,
     * leaving it where it is when those fall outside the grid. Each spawn point
     * sits at its edge vertex's horizontal position, so each becomes that
     * vertex, height included.
     */
    method SnapSpawnPoints(verts: array<Vec3>, picks: seq<EdgePick>)
      requires Configured(picks) && IsGrid(verts[..], gridSize, cellSize)
      requires |spawnPoints| == numberOfPaths
      requires forall q :: 0 <= q < numberOfPaths ==>
        spawnPoints[q].x == verts[SpawnIndex(picks[q], gridSize)].x &&
        spawnPoints[q].z == verts[SpawnIndex(picks[q], gridSize)].z
      modifies this`spawnPoints
      ensures |spawnPoints| == numberOfPaths
      ensures forall p :: 0 <= p < numberOfPaths ==> spawnPoints[p] == verts[SpawnIndex(picks[p], gridSize)]
    {
      var vertsPerRow := gridSize + 1;
      for p := 0 to |spawnPoints|
        modifies this`spawnPoints
        invariant |spawnPoints| == numberOfPaths
        invariant forall q :: 0 <= q < p ==> spawnPoints[q] == verts[SpawnIndex(picks[q], gridSize)]
        invariant forall q :: p <= q < numberOfPaths ==>
          spawnPoints[q].x == verts[SpawnIndex(picks[q], gridSize)].x &&
          spawnPoints[q].z == verts[SpawnIndex(picks[q], gridSize)].z
      {
        var world := spawnPoints[p];
        var localX := world.x / cellSize;
        var localZ := world.z / cellSize;
        SnapRecoversGridPoint(picks[p], gridSize, cellSize, verts[..], world);
        var ix := RoundToInt(localX);
        var iz := RoundToInt(localZ);
        if ix >= 0 && iz >= 0 && ix < vertsPerRow && iz < vertsPerRow {
          var idx := Index(ix, iz, vertsPerRow);
          spawnPoints := spawnPoints[p := verts[idx]];
        }
      }
    }

    /**
     * Builds the vertex and triangle buffers, hands them to the mesh and
     * carves the corridors. The resulting mesh has `(gridSize + 1)^2` vertices
     * laid out on the grid, `gridSize^2 * 6` triangle indices cell by cell, and
     * every height lies between its noise height and the target height.
     */
    method BuildMesh(noise: (int, int) -> real, picks: seq<EdgePick>)
      requires Configured(picks)
      modifies this`spawnPoints, this`mesh
      ensures mesh.Some? && IsGrid(mesh.value.vertices, gridSize, cellSize)
      ensures |mesh.value.triangles| == gridSize * gridSize * 6
      ensures forall x, z, j :: 0 <= x < gridSize && 0 <= z < gridSize && 0 <= j < 6 ==>
        mesh.value.triangles[TriSlot(x, z, j, gridSize)] == CellTriangles(x, z, gridSize)[j]
      ensures forall x, z :: 0 <= x <= gridSize && 0 <= z <= gridSize ==>
        Between(mesh.value.vertices[VertexIndex(x, z, gridSize)].y, noise(x, z),
                noise(gridSize / 2, gridSize / 2) - 0.1)
      ensures numberOfPaths == 0 ==> forall x, z :: 0 <= x <= gridSize && 0 <= z <= gridSize ==>
        mesh.value.vertices[VertexIndex(x, z, gridSize)].y == noise(x, z)
      ensures |spawnPoints| == numberOfPaths
      ensures forall p :: 0 <= p < numberOfPaths ==>
        spawnPoints[p] == mesh.value.vertices[SpawnIndex(picks[p], gridSize)]
      ensures PathsCarved(mesh.value.vertices, gridSize, cellSize, spawnPoints, numberOfPaths,
                          GridPoint(gridSize / 2, gridSize / 2, cellSize, noise),
                          noise(gridSize / 2, gridSize / 2) - 0.1)
      ensures forall x, z ::
                (0 <= x <= gridSize && 0 <= z <= gridSize &&
                 OffPaths(x, z, gridSize, cellSize, spawnPoints, numberOfPaths,
                          GridPoint(gridSize / 2, gridSize / 2, cellSize, noise), CeilToInt(pathWidth))) ==>
                mesh.value.vertices[VertexIndex(x, z, gridSize)] == GridPoint(x, z, cellSize, noise)
    {
      var verts := BuildVertices(gridSize, cellSize, noise);
      var tris := BuildTriangles(gridSize);
      mesh := Some(Mesh(verts[..], tris[..]));
      ghost var original := verts[..];
      assert IsGrid(original, gridSize, cellSize);
      assert original[CenterIndex(gridSize)] == GridPoint(gridSize / 2, gridSize / 2, cellSize, noise);
      CarvePaths(verts, picks);
    }

    /**
     * Places the tower on the current mesh's centre vertex, replacing any
     * earlier one; does nothing without a tower prefab or a mesh.
     */
    method PlaceTowerAtCenter()
      requires gridSize >= 0
      requires mesh.Some? ==> |mesh.value.vertices| == VertexCount(gridSize)
      modifies this`tower
      ensures tower == if !hasTowerPrefab || mesh.None? then old(tower)
                       else Some(mesh.value.vertices[CenterIndex(gridSize)])
    {
      if !hasTowerPrefab || mesh.None? {
        return;
      }
      var vertsPerRow := gridSize + 1;
      var cx := gridSize / 2;
      var cz := gridSize / 2;
      var centerIndex := cz * vertsPerRow + cx;
      assert centerIndex == CenterIndex(gridSize);
      var localCenter := mesh.value.vertices[centerIndex];
      var worldCenter := localCenter;
      tower := Some(worldCenter);
    }

    /**
     * Generation followed by tower placement: the mesh, spawn points and
     * carved corridors are those `BuildMesh` promises, and the tower stands
     * on the carved centre vertex.
     */
    method Start(noise: (int, int) -> real, picks: seq<EdgePick>)
      requires Configured(picks)
      modifies this`spawnPoints, this`mesh, this`tower
      ensures mesh.Some? && IsGrid(mesh.value.vertices, gridSize, cellSize)
      ensures |mesh.value.triangles| == gridSize * gridSize * 6
      ensures forall x, z, j :: 0 <= x < gridSize && 0 <= z < gridSize && 0 <= j < 6 ==>
        mesh.value.triangles[TriSlot(x, z, j, gridSize)] == CellTriangles(x, z, gridSize)[j]
      ensures forall x, z :: 0 <= x <= gridSize && 0 <= z <= gridSize ==>
        Between(mesh.value.vertices[VertexIndex(x, z, gridSize)].y, noise(x, z),
                noise(gridSize / 2, gridSize / 2) - 0.1)
      ensures numberOfPaths == 0 ==> forall x, z :: 0 <= x <= gridSize && 0 <= z <= gridSize ==>
        mesh.value.vertices[VertexIndex(x, z, gridSize)].y == noise(x, z)
      ensures |spawnPoints| == numberOfPaths
      ensures forall p :: 0 <= p < numberOfPaths ==>
        spawnPoints[p] == mesh.value.vertices[SpawnIndex(picks[p], gridSize)]
      ensures PathsCarved(mesh.value.vertices, gridSize, cellSize, spawnPoints, numberOfPaths,
                          GridPoint(gridSize / 2, gridSize / 2, cellSize, noise),
                          noise(gridSize / 2, gridSize / 2) - 0.1)
      ensures forall x, z ::
                (0 <= x <= gridSize && 0 <= z <= gridSize &&
                 OffPaths(x, z, gridSize, cellSize, spawnPoints, numberOfPaths,
                          GridPoint(gridSize / 2, gridSize / 2, cellSize, noise), CeilToInt(pathWidth))) ==>
                mesh.value.vertices[VertexIndex(x, z, gridSize)] == GridPoint(x, z, cellSize, noise)
      ensures tower == if hasTowerPrefab then Some(mesh.value.vertices[CenterIndex(gridSize)]) else old(tower)
    {
      BuildMesh(noise, picks);
      PlaceTowerAtCenter();
    }
  }
}
