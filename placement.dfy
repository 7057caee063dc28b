/**
 * Defender placement: the manager samples the terrain on a strided grid,
 * keeps the samples that are clear of every corridor start and of the
 * tower, up to a cap, and instantiates defenders at kept slots it has not
 * occupied yet.
 */
module Placement {
  import opened Opt
  import opened Numerics
  import opened Geometry
  import opened Grid
  import opened Terrain

  /** Where samples come from: grid size, cell size, the mesh's vertices and the lift above them. */
  datatype Layout = Layout(grid: int, cell: real, vertices: seq<Vec3>, placementHeight: real)

  /** What a sample must keep clear of: the corridor starts, the centre and the clearance distance. */
  datatype Clearance = Clearance(spawnPoints: seq<Vec3>, center: Vec3, minDistance: real)

  /** The centre of the terrain as the manager computes it: half the grid size as a real number, in world units. */
  function CenterWorld(grid: int, cell: real): (c: Vec3)
    ensures c.y == 0.0 && c.x == c.z
  {
    Vec3((grid as real / 2.0) * cell, 0.0, (grid as real / 2.0) * cell)
  }

  /**
   * The sample at grid point (x, z): its world x and z, and the height of the
   * vertex at the row-major index, clamped into the vertex array, lifted by
   * the placement height.
   */
  function SampleAt(l: Layout, x: int, z: int): (s: Vec3)
    requires |l.vertices| >= 1
  {
    var k := Clamp(Index(x, z, l.grid + 1), 0, |l.vertices| - 1);
    Vec3(x as real * l.cell, l.vertices[k].y + l.placementHeight, z as real * l.cell)
  }

  /**
   * On a full vertex buffer the clamp never bites: the sample sits the
   * placement height above the vertex of its own grid point.
   */
  lemma SampleAtGridVertex(l: Layout, x: int, z: int)
    requires 0 <= x <= l.grid && 0 <= z <= l.grid && |l.vertices| == (l.grid + 1) * (l.grid + 1)
    ensures SampleAt(l, x, z) == Vec3(x as real * l.cell, l.vertices[Index(x, z, l.grid + 1)].y + l.placementHeight,
                                      z as real * l.cell)
  {
    var k := Index(x, z, l.grid + 1);
    assert 0 <= k < |l.vertices|;
  }

  /** Some corridor start lies horizontally closer to s than the clearance distance. */
  predicate NearSpawn(s: Vec3, spawnPoints: seq<Vec3>, minDistance: real)
  {
    exists q :: 0 <= q < |spawnPoints| && CloserThan(HorizontalSqDist(s, spawnPoints[q]), minDistance)
  }

  /** A sample is rejected near a corridor start, or within half the clearance distance of the centre. */
  predicate TooClose(s: Vec3, cl: Clearance)
  {
    NearSpawn(s, cl.spawnPoints, cl.minDistance)
    || CloserThan(HorizontalSqDist(s, cl.center), cl.minDistance * 0.5)
  }

  /** The coordinates v, v + step, v + 2 * step, ... that do not exceed grid. */
  function AxisFrom(v: int, grid: int, step: int): seq<int>
    requires step >= 1
    decreases grid - v
  {
    if v > grid then [] else [v] + AxisFrom(v + step, grid, step)
  }

  /** The samples of one column x, in the order of zs. */
  function Row(l: Layout, x: int, zs: seq<int>): seq<Vec3>
    requires |l.vertices| >= 1
  {
    if zs == [] then []
    else Row(l, x, zs[..|zs| - 1]) + [SampleAt(l, x, zs[|zs| - 1])]
  }

  /** The samples of the columns xs, each column in the order of zs. */
  function Scan(l: Layout, xs: seq<int>, zs: seq<int>): seq<Vec3>
    requires |l.vertices| >= 1
  {
    if xs == [] then []
    else Scan(l, xs[..|xs| - 1], zs) + Row(l, xs[|xs| - 1], zs)
  }

  /** Every sample the manager visits, in visiting order (x outer, z inner). */
  function Candidates(l: Layout, step: int): seq<Vec3>
    requires step >= 1 && |l.vertices| >= 1
  {
    Scan(l, AxisFrom(0, l.grid, step), AxisFrom(0, l.grid, step))
  }

  /** What the scan keeps from the samples: each clear sample in turn while fewer than cap are kept. */
  function Kept(samples: seq<Vec3>, cl: Clearance, cap: int): seq<Vec3>
  {
    if samples == [] then []
    else
      var kept := Kept(samples[..|samples| - 1], cl, cap);
      var s := samples[|samples| - 1];
      if |kept| < cap && !TooClose(s, cl) then kept + [s] else kept
  }

  /** The reference: every clear sample, in order, without a cap. */
  function Accepted(samples: seq<Vec3>, cl: Clearance): seq<Vec3>
  {
    if samples == [] then []
    else
      var s := samples[|samples| - 1];
      Accepted(samples[..|samples| - 1], cl) + (if TooClose(s, cl) then [] else [s])
  }

  /** Keeping while under the cap is the same as filtering and then taking the first cap samples. */
  lemma {:induction false} KeptIsCappedAccepted(samples: seq<Vec3>, cl: Clearance, cap: int)
    ensures var a := Accepted(samples, cl);
            Kept(samples, cl, cap) == a[..Min(|a|, Max(0, cap))]
  {
    if samples != [] {
      var init := samples[..|samples| - 1];
      KeptIsCappedAccepted(init, cl, cap);
      var a := Accepted(init, cl);
      var s := samples[|samples| - 1];
      if !TooClose(s, cl) {
        assert Accepted(samples, cl) == a + [s];
        if |a| < Max(0, cap) {
          assert (a + [s])[..Min(|a| + 1, Max(0, cap))] == a + [s];
        } else {
          assert (a + [s])[..Min(|a| + 1, Max(0, cap))] == a[..Min(|a|, Max(0, cap))];
        }
      }
    }
  }

  /** Every accepted sample is clear of all corridor starts and of the centre. */
  lemma {:induction false} AcceptedAreClear(samples: seq<Vec3>, cl: Clearance)
    ensures forall i :: 0 <= i < |Accepted(samples, cl)| ==> !TooClose(Accepted(samples, cl)[i], cl)
  {
    if samples != [] {
      AcceptedAreClear(samples[..|samples| - 1], cl);
    }
  }

  /** Every accepted sample is one of the samples. */
  lemma {:induction false} AcceptedFromSamples(samples: seq<Vec3>, cl: Clearance)
    ensures forall i :: 0 <= i < |Accepted(samples, cl)| ==> Accepted(samples, cl)[i] in samples
  {
    if samples != [] {
      var init := samples[..|samples| - 1];
      AcceptedFromSamples(init, cl);
      assert forall p :: p in init ==> p in samples;
    }
  }

  /**
   * What the scan keeps: at most cap samples (none when cap is not positive),
   * each a visited sample whose horizontal distance to every corridor start
   * is at least the clearance distance and to the centre at least half of it.
   */
  lemma KeptAreClearAndCapped(samples: seq<Vec3>, cl: Clearance, cap: int)
    ensures |Kept(samples, cl, cap)| <= Max(0, cap)
    ensures forall i :: 0 <= i < |Kept(samples, cl, cap)| ==>
              var p := Kept(samples, cl, cap)[i];
              p in samples
              && (forall q :: 0 <= q < |cl.spawnPoints| ==>
                    !CloserThan(HorizontalSqDist(p, cl.spawnPoints[q]), cl.minDistance))
              && !CloserThan(HorizontalSqDist(p, cl.center), cl.minDistance * 0.5)
  {
    KeptIsCappedAccepted(samples, cl, cap);
    AcceptedAreClear(samples, cl);
    AcceptedFromSamples(samples, cl);
  }

  /** Once cap samples are kept, later samples change nothing. */
  lemma {:induction false} KeptSaturated(a: seq<Vec3>, b: seq<Vec3>, cl: Clearance, cap: int)
    requires |Kept(a, cl, cap)| >= cap
    ensures Kept(a + b, cl, cap) == Kept(a, cl, cap)
  {
    if b != [] {
      var b' := b[..|b| - 1];
      assert (a + b)[..|a + b| - 1] == a + b';
      KeptSaturated(a, b', cl, cap);
    } else {
      assert a + b == a;
    }
  }

  /** Scanning one more column appends that column's samples. */
  lemma ScanSnoc(l: Layout, xs: seq<int>, x: int, zs: seq<int>)
    requires |l.vertices| >= 1
    ensures Scan(l, xs + [x], zs) == Scan(l, xs, zs) + Row(l, x, zs)
  {
    assert (xs + [x])[..|xs|] == xs;
  }

  /** Scanning two runs of columns is scanning the first and then the second. */
  lemma {:induction false} ScanAppend(l: Layout, xs: seq<int>, ys: seq<int>, zs: seq<int>)
    requires |l.vertices| >= 1
    ensures Scan(l, xs + ys, zs) == Scan(l, xs, zs) + Scan(l, ys, zs)
  {
    if ys != [] {
      var ys' := ys[..|ys| - 1];
      assert (xs + ys)[..|xs + ys| - 1] == xs + ys';
      ScanAppend(l, xs, ys', zs);
    } else {
      assert xs + ys == xs;
    }
  }

  /** Concatenation is associative. */
  lemma ConcatAssoc<T>(a: seq<T>, b: seq<T>, c: seq<T>)
    ensures (a + b) + c == a + (b + c)
  {
  }

  /** The stride `axis` is the coordinates `done` already visited followed by those from v on. */
  ghost predicate SplitAt(done: seq<int>, v: int, grid: int, step: int, axis: seq<int>)
    requires step >= 1
  {
    done + AxisFrom(v, grid, step) == axis
  }

  /** Moving one coordinate from the remaining stride to the visited ones keeps the whole stride. */
  lemma AxisAdvance(done: seq<int>, v: int, grid: int, step: int, axis: seq<int>)
    requires step >= 1 && v <= grid
    requires SplitAt(done, v, grid, step, axis)
    ensures SplitAt(done + [v], v + step, grid, step, axis)
  {
    ConcatAssoc(done, [v], AxisFrom(v + step, grid, step));
  }

  /** Sampling a column at one more z appends that one sample. */
  lemma RowSnoc(l: Layout, x: int, zs: seq<int>, z: int)
    requires |l.vertices| >= 1
    ensures Row(l, x, zs + [z]) == Row(l, x, zs) + [SampleAt(l, x, z)]
  {
    assert (zs + [z])[..|zs|] == zs;
  }

  /** Sampling a column at two runs of z is sampling at the first and then at the second. */
  lemma {:induction false} RowAppend(l: Layout, x: int, zs: seq<int>, ws: seq<int>)
    requires |l.vertices| >= 1
    ensures Row(l, x, zs + ws) == Row(l, x, zs) + Row(l, x, ws)
  {
    if ws != [] {
      var ws' := ws[..|ws| - 1];
      assert (zs + ws)[..|zs + ws| - 1] == zs + ws';
      RowAppend(l, x, zs, ws');
    } else {
      assert zs + ws == zs;
    }
  }

  /** One more sample extends the prefix the scan has kept from by exactly that sample's verdict. */
  lemma KeptSnoc(prefix: seq<Vec3>, s: Vec3, cl: Clearance, cap: int)
    ensures Kept(prefix + [s], cl, cap)
            == if |Kept(prefix, cl, cap)| < cap && !TooClose(s, cl) then Kept(prefix, cl, cap) + [s]
               else Kept(prefix, cl, cap)
  {
    assert (prefix + [s])[..|prefix|] == prefix;
  }

  /** One more sample of the current column extends what is kept by that sample's verdict. */
  lemma KeptRowSnoc(l: Layout, x: int, before: seq<Vec3>, zsDone: seq<int>, z: int, cl: Clearance, cap: int)
    requires |l.vertices| >= 1
    ensures var prefix := before + Row(l, x, zsDone);
            var s := SampleAt(l, x, z);
            Kept(before + Row(l, x, zsDone + [z]), cl, cap)
            == if |Kept(prefix, cl, cap)| < cap && !TooClose(s, cl) then Kept(prefix, cl, cap) + [s]
               else Kept(prefix, cl, cap)
  {
    RowSnoc(l, x, zsDone, z);
    ConcatAssoc(before, Row(l, x, zsDone), [SampleAt(l, x, z)]);
    KeptSnoc(before + Row(l, x, zsDone), SampleAt(l, x, z), cl, cap);
  }

  /** Tests the sample at (x, z) against the clearance and keeps it while fewer than cap are kept. */
  method ConsiderSample(l: Layout, cl: Clearance, x: int, z: int, cap: int,
                        ghost before: seq<Vec3>, ghost zsDone: seq<int>, kept0: seq<Vec3>) returns (kept: seq<Vec3>)
    requires |l.vertices| >= 1
    requires kept0 == Kept(before + Row(l, x, zsDone), cl, cap) && |kept0| < cap
    ensures kept == Kept(before + Row(l, x, zsDone + [z]), cl, cap)
  {
    var sample := SampleAt(l, x, z);
    var tooClose := NearSpawnPoint(sample, cl.spawnPoints, cl.minDistance);
    if CloserThan(HorizontalSqDist(sample, cl.center), cl.minDistance * 0.5) {
      tooClose := true;
    }
    KeptRowSnoc(l, x, before, zsDone, z, cl, cap);
    kept := kept0;
    if !tooClose {
      kept := kept + [sample];
    }
  }

  /**
   * Where a loop over a stride stops early, the cap is reached, so the rest
   * of the stride keeps nothing more.
   */
  lemma KeptStops(prefix: seq<Vec3>, rest: seq<Vec3>, cl: Clearance, cap: int, stopped: bool)
    requires stopped ==> |Kept(prefix, cl, cap)| >= cap
    requires !stopped ==> rest == []
    ensures Kept(prefix + rest, cl, cap) == Kept(prefix, cl, cap)
  {
    if stopped {
      KeptSaturated(prefix, rest, cl, cap);
    } else {
      assert prefix + rest == prefix;
    }
  }

  /**
   * One column of the scan: z runs from 0 to grid in strides of step while
   * fewer than cap samples are kept, starting from what the earlier samples kept.
   */
  method ScanColumn(l: Layout, cl: Clearance, x: int, step: int, cap: int,
                    ghost axis: seq<int>, ghost before: seq<Vec3>, kept0: seq<Vec3>) returns (kept: seq<Vec3>)
    requires step >= 1 && |l.vertices| >= 1
    requires axis == AxisFrom(0, l.grid, step)
    requires kept0 == Kept(before, cl, cap)
    ensures kept == Kept(before + Row(l, x, axis), cl, cap)
  {
    kept := kept0;
    ghost var zsDone: seq<int> := [];
    assert before + Row(l, x, zsDone) == before;
    var z := 0;
    while z <= l.grid && |kept| < cap
      invariant SplitAt(zsDone, z, l.grid, step, axis)
      invariant kept == Kept(before + Row(l, x, zsDone), cl, cap)
      decreases l.grid - z
    {
      kept := ConsiderSample(l, cl, x, z, cap, before, zsDone, kept);
      AxisAdvance(zsDone, z, l.grid, step, axis);
      zsDone := zsDone + [z];
      z := z + step;
    }
    ghost var rest := AxisFrom(z, l.grid, step);
    RowAppend(l, x, zsDone, rest);
    ConcatAssoc(before, Row(l, x, zsDone), Row(l, x, rest));
    KeptStops(before + Row(l, x, zsDone), Row(l, x, rest), cl, cap, z <= l.grid);
  }

  /**
   * The scan the manager runs: nested loops over x and z from 0 to grid in
   * strides of step, stopping both loops once cap samples are kept.
   */
  method ScanKept(l: Layout, cl: Clearance, step: int, cap: int) returns (kept: seq<Vec3>)
    requires step >= 1 && |l.vertices| >= 1
    ensures kept == Kept(Candidates(l, step), cl, cap)
  {
    ghost var axis := AxisFrom(0, l.grid, step);
    kept := [];
    ghost var xsDone: seq<int> := [];
    ghost var scanned: seq<Vec3> := [];
    assert xsDone + axis == axis;
    var x := 0;
    while x <= l.grid && |kept| < cap
      invariant SplitAt(xsDone, x, l.grid, step, axis)
      invariant scanned == Scan(l, xsDone, axis)
      invariant kept == Kept(scanned, cl, cap)
      decreases l.grid - x
    {
      kept, xsDone, scanned := ScanNextColumn(l, cl, x, step, cap, axis, xsDone, scanned, kept);
      x := x + step;
    }
    ghost var rest := AxisFrom(x, l.grid, step);
    ScanAppend(l, xsDone, rest, axis);
    KeptStops(scanned, Scan(l, rest, axis), cl, cap, x <= l.grid);
  }

  /** One pass of the outer loop: scans column x and moves it to the visited columns. */
  method ScanNextColumn(l: Layout, cl: Clearance, x: int, step: int, cap: int, ghost axis: seq<int>,
                        ghost xsDone: seq<int>, ghost scanned: seq<Vec3>, kept0: seq<Vec3>)
    returns (kept: seq<Vec3>, ghost xsDone': seq<int>, ghost scanned': seq<Vec3>)
    requires step >= 1 && |l.vertices| >= 1 && x <= l.grid
    requires axis == AxisFrom(0, l.grid, step) && SplitAt(xsDone, x, l.grid, step, axis)
    requires scanned == Scan(l, xsDone, axis) && kept0 == Kept(scanned, cl, cap)
    ensures SplitAt(xsDone', x + step, l.grid, step, axis)
    ensures scanned' == Scan(l, xsDone', axis) && kept == Kept(scanned', cl, cap)
  {
    AxisAdvance(xsDone, x, l.grid, step, axis);
    ScanSnoc(l, xsDone, x, axis);
    kept := ScanColumn(l, cl, x, step, cap, axis, scanned, kept0);
    xsDone' := xsDone + [x];
    scanned' := scanned + Row(l, x, axis);
  }

  /** Walks the corridor starts until one lies closer than the clearance distance. */
  method NearSpawnPoint(s: Vec3, spawnPoints: seq<Vec3>, minDistance: real) returns (tooClose: bool)
    ensures tooClose <==> NearSpawn(s, spawnPoints, minDistance)
  {
    tooClose := false;
    var q := 0;
    while q < |spawnPoints|
      invariant 0 <= q <= |spawnPoints|
      invariant !tooClose
      invariant forall q' :: 0 <= q' < q ==> !CloserThan(HorizontalSqDist(s, spawnPoints[q']), minDistance)
    {
      if CloserThan(HorizontalSqDist(s, spawnPoints[q]), minDistance) {
        tooClose := true;
        break;
      }
      q := q + 1;
    }
  }

  /** The manager: candidate slots, which of them are taken, and the defenders it has instantiated. */
  class DefenderManager {
    const hasDefenderPrefab: bool
    const placementHeight: real
    const minDistanceFromPath: real
    const sampleStep: int
    const maxPositions: int
    const autoPlaceAllDefenders: bool

    var defenderPositions: seq<Vec3>
    var occupied: seq<bool>
    /** Where defenders were instantiated, in order. */
    var placed: seq<Vec3>

    /** Every slot has an occupancy flag. */
    ghost predicate Valid()
      reads this
    {
      |occupied| == |defenderPositions|
    }

    constructor(hasDefenderPrefab: bool, placementHeight: real, minDistanceFromPath: real,
                sampleStep: int, maxPositions: int, autoPlaceAllDefenders: bool)
      ensures Valid()
      ensures this.hasDefenderPrefab == hasDefenderPrefab && this.placementHeight == placementHeight
      ensures this.minDistanceFromPath == minDistanceFromPath && this.sampleStep == sampleStep
      ensures this.maxPositions == maxPositions && this.autoPlaceAllDefenders == autoPlaceAllDefenders
      ensures defenderPositions == [] && occupied == [] && placed == []
    {
      this.hasDefenderPrefab := hasDefenderPrefab;
      this.placementHeight := placementHeight;
      this.minDistanceFromPath := minDistanceFromPath;
      this.sampleStep := sampleStep;
      this.maxPositions := maxPositions;
      this.autoPlaceAllDefenders := autoPlaceAllDefenders;
      defenderPositions := [];
      occupied := [];
      placed := [];
    }

    /** The sampling layout over the terrain's vertices. */
    function LayoutOf(t: TerrainView): Layout
      requires t.vertices.Some?
    {
      Layout(t.gridSize, t.cellSize, t.vertices.value, placementHeight)
    }

    /** The clearance: the terrain's spawn points (none when unset) and the centre. */
    function ClearanceOf(t: TerrainView): Clearance
    {
      Clearance(if t.spawnPoints.Some? then t.spawnPoints.value else [],
                CenterWorld(t.gridSize, t.cellSize), minDistanceFromPath)
    }

    /** Recomputes the slots from the terrain and clears their occupancy. */
    method GenerateDefenderPositions(t: TerrainView)
      requires t.vertices.Some? && |t.vertices.value| >= 1 && sampleStep >= 1
      modifies this`defenderPositions, this`occupied
      ensures Valid()
      ensures defenderPositions == Kept(Candidates(LayoutOf(t), sampleStep), ClearanceOf(t), maxPositions)
      ensures forall i :: 0 <= i < |occupied| ==> !occupied[i]
    {
      defenderPositions := ScanKept(LayoutOf(t), ClearanceOf(t), sampleStep, maxPositions);
      occupied := seq(|defenderPositions|, _ => false);
    }

    /** Instantiates a defender at a free slot; a missing prefab, a bad index or a taken slot does nothing. */
    method PlaceDefender(index: int)
      requires Valid()
      modifies this`occupied, this`placed
      ensures Valid()
      ensures if hasDefenderPrefab && 0 <= index < |defenderPositions| && !old(occupied)[index]
              then occupied == old(occupied)[index := true] && placed == old(placed) + [defenderPositions[index]]
              else occupied == old(occupied) && placed == old(placed)
    {
      if !hasDefenderPrefab {
        return;
      }
      if index < 0 || index >= |defenderPositions| {
        return;
      }
      if occupied[index] {
        return;
      }
      placed := placed + [defenderPositions[index]];
      occupied := occupied[index := true];
    }

    /**
     * Start: without a terrain or its mesh nothing happens; otherwise the slots
     * are generated and, when auto-placement is on, a defender is placed on
     * every slot (each exactly once, provided there is a prefab).
     */
    method Start(terrain: Option<TerrainView>)
      requires Valid() && sampleStep >= 1
      requires terrain.Some? && terrain.value.vertices.Some? ==> |terrain.value.vertices.value| >= 1
      modifies this`defenderPositions, this`occupied, this`placed
      ensures Valid()
      ensures terrain.None? || terrain.value.vertices.None? ==>
                defenderPositions == old(defenderPositions) && occupied == old(occupied) && placed == old(placed)
      ensures terrain.Some? && terrain.value.vertices.Some? ==>
                var placing := autoPlaceAllDefenders && hasDefenderPrefab;
                && defenderPositions == Kept(Candidates(LayoutOf(terrain.value), sampleStep),
                                             ClearanceOf(terrain.value), maxPositions)
                && (forall i :: 0 <= i < |occupied| ==> occupied[i] == placing)
                && placed == old(placed) + (if placing then defenderPositions else [])
    {
      if terrain.None? || terrain.value.vertices.None? {
        return;
      }
      GenerateDefenderPositions(terrain.value);
      if autoPlaceAllDefenders {
        var placing := hasDefenderPrefab;
        ghost var slots := defenderPositions;
        for i := 0 to |defenderPositions|
          invariant Valid()
          invariant defenderPositions == slots
          invariant forall j :: 0 <= j < |occupied| ==> occupied[j] == (j < i && placing)
          invariant placed == old(placed) + (if placing then defenderPositions[..i] else [])
        {
          PlaceDefender(i);
          if placing {
            assert defenderPositions[..i + 1] == defenderPositions[..i] + [defenderPositions[i]];
          }
        }
        if placing {
          assert defenderPositions[..|defenderPositions|] == defenderPositions;
        }
      }
    }
  }
}
