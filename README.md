# Tower-defense simulation core, in Dafny

This project models the deterministic simulation rules of a small Unity tower-defense game and proves properties about them. The engine's services are replaced by parameters: noise heights, random draws, movement, the live-enemy list, object creation and destruction.

- **Terrain** (`terrain.dfy`, module `Terrain`, class `ProceduralTerrain`):
  - builds a `(gridSize + 1)²` vertex buffer, stored row-major at `z * (gridSize + 1) + x`;
  - builds a `gridSize² * 6` triangle buffer;
  - carves corridors from random edge vertices toward the centre vertex, changing heights in place in an `array`;
  - snaps the spawn points onto the carved surface;
  - places the tower on the centre vertex.
- **Defender placement** (`placement.dfy`, module `Placement`, class `DefenderManager`):
  - a strided nested scan of the grid;
  - a clearance test against the spawn points and the centre;
  - a cap on the number of kept positions;
  - a guarded, idempotent `PlaceDefender`.
- **Combat** (`combat.dfy`, module `Combat`): the nearest-enemy-in-range scan that defenders and the tower share. The earliest enemy wins a tie. `Strike` scans and then hits the target once.
- **Enemies** (`enemies.dfy`, class `Enemy`): the waypoint cursor, with destruction at the end of the path, and health without a floor.
- **Health** (`health.dfy`): health clamped into `[0, max]`, used by defenders and the tower.
- **Defenders and the tower** (`defenders.dfy`, `towers.dfy`):
  - a cooldown timer that is rewound only after a hit;
  - clamped health;
  - a destroy or die request whenever health reaches 0.
- **Spawner** (`spawning.dfy`, class `EnemySpawner`):
  - a start-up guard;
  - a spawn loop bounded by a counter;
  - each spawned enemy gets a two-point path: its spawn point, then the tower.
- **Shared helpers** (`numerics.dfy`, `geometry.dfy`, `grid.dfy`, `opt.dfy`): the engine's clamp, lerp, rounding and ceiling; squared distances; the row-major index arithmetic; an `Option` type.

How engine behaviour is represented:

- **Distances.** The source compares `Vector3.Distance(a, b)` with a radius. Both sides are non-negative, so the model compares squared distances instead:
  - `WithinDistance(d2, r)` stands for `dist <= r`;
  - `CloserThan(d2, r)` stands for `dist < r`.
- **Destruction.** `Destroy(gameObject)` is a counter of destroy requests: `destroyRequests` on enemies and defenders, `deaths` on the tower. `Instantiate` appends to a sequence: `placed` for defenders, `instantiated` and `enemies` for the spawner.
- **What other components see of the terrain.** `TerrainView` holds the grid size, the cell size, the vertices, the spawn points and the tower position, each optional where the source can find it missing. `ProceduralTerrain` does not expose these members publicly. `ProceduralTerrain.View()` builds the view from the terrain's state.

## Model

| member | source | states |
|---|---|---|
| Numerics.Clamp | Assets/scripts/defender.cs:56 | The engine's integer clamp: the result lies in `[lo, hi]` whenever `lo <= hi`; a value already in range is unchanged; a value below `lo` becomes `lo`; a value above `hi` and not below `lo` becomes `hi`. |
| Numerics.Lerp | Assets/scripts/proceduralTerrain.cs:148 | The engine's clamped lerp: the result lies between `a` and `b`; it is `a` for `t <= 0` and `b` for `t >= 1`. |
| Numerics.LerpBetween | Assets/scripts/proceduralTerrain.cs:148 | For a fraction in `[0, 1]`, `a + (b - a) * u` lies between `a` and `b`, in either order of the two. |
| Numerics.RoundToInt | Assets/scripts/proceduralTerrain.cs:130-131 | Rounds to a nearest integer: within 0.5 of the input; exact on integers; halves go to the even neighbour. |
| Numerics.CeilToInt | Assets/scripts/proceduralTerrain.cs:139 | The ceiling: the least integer not below the input. |
| Geometry.SqDist | Assets/scripts/defender.cs:42 | The squared distance is never negative, so comparing it is comparing the distance. |
| Grid.Index | Assets/scripts/proceduralTerrain.cs:118 | The row-major index of an in-range grid point lies inside the `n * n` buffer. |
| Grid.IndexCoords | Assets/scripts/proceduralTerrain.cs:54-63 | The index determines the grid point: dividing by the row length gives `z`; the remainder gives `x`. Distinct points have distinct slots. |
| Grid.IndexInjective | Assets/scripts/proceduralTerrain.cs:134-147 | Distinct grid points are stored at distinct indices, so writing one vertex leaves every other vertex alone. |
| Grid.IndexOrder | Assets/scripts/proceduralTerrain.cs:53-65 | A point visited earlier in row-major order (smaller `z`, or the same `z` and smaller `x`) has a smaller index. This is why the running counter never overwrites a slot. |
| Terrain.VertexIndex | Assets/scripts/proceduralTerrain.cs:73 | A grid point with `0 <= x, z <= gridSize` has its vertex inside the `(gridSize + 1)²` buffer. |
| Terrain.CenterIndex | Assets/scripts/proceduralTerrain.cs:102-104 | The centre vertex index is in the buffer and decodes to `(gridSize / 2, gridSize / 2)`, using integer halves. |
| Terrain.EdgeVertex | Assets/scripts/proceduralTerrain.cs:110-115 | A corridor's start is a grid point on the boundary. With at least one cell: either `x` is 0 or `gridSize` and `z < gridSize`, or `z` is 0 or `gridSize` and `x < gridSize`, so it is never the far corner. |
| Terrain.EdgeVertexReachable | Assets/scripts/proceduralTerrain.cs:110-115 | Conversely, every boundary vertex other than the far corner is the start chosen by some pair of valid draws. |
| Terrain.SpawnIndex | Assets/scripts/proceduralTerrain.cs:118 | The spawn vertex index lies inside the vertex buffer. |
| Terrain.CellTriangles | Assets/scripts/proceduralTerrain.cs:73-79 | Cell `(x, z)` emits the triangles `(i0, i2, i1)` and `(i1, i2, i3)`. These are the vertices of `(x,z)`, `(x,z+1)`, `(x+1,z)` and `(x+1,z)`, `(x,z+1)`, `(x+1,z+1)`, all inside the vertex buffer. |
| Terrain.TriSlot | Assets/scripts/proceduralTerrain.cs:68-79 | Entry `j` of cell `(x, z)` is written at a position inside the `gridSize² * 6` triangle buffer. |
| Terrain.CarvedTowardTransitive | Assets/scripts/proceduralTerrain.cs:107-152 | Two carvings toward the same target compose into one, so the corridors compose. |
| Terrain.CarvingKeepsGrid | Assets/scripts/proceduralTerrain.cs:132-148 | Carving changes only heights, so every vertex keeps its horizontal position `(x * cellSize, z * cellSize)`. |
| Terrain.SetPoint | Assets/scripts/proceduralTerrain.cs:61-63 | One pass of the vertex loop: with every earlier grid point in row-major order already in place, storing at the counter puts point `(x, z)` in place too, at its horizontal position and noise height. |
| Terrain.BuildVertices | Assets/scripts/proceduralTerrain.cs:46-65 | The vertex buffer has `(gridSize + 1)²` entries. Grid point `(x, z)` is at `z * (gridSize + 1) + x`, with horizontal position `(x * cellSize, z * cellSize)` and its noise height. |
| Terrain.BuildTriangles | Assets/scripts/proceduralTerrain.cs:50-81 | The triangle buffer has exactly `gridSize² * 6` entries. Every cell's six indices are at the cell's slots, and every entry indexes a vertex. |
| Terrain.FillCell | Assets/scripts/proceduralTerrain.cs:73-79 | One pass of the triangle loop: with every earlier cell's six indices at their slots, writing at the counter puts cell `(x, z)`'s six at its slots too and advances the counter by six. |
| Terrain.EmitCell | Assets/scripts/proceduralTerrain.cs:78-79 | Writes `i0, i2, i1, i1, i2, i3` at the counter, advances it by six, and leaves the rest of the buffer alone. |
| Terrain.SlotCell | Assets/scripts/proceduralTerrain.cs:50-81 | Every position of the triangle buffer belongs to some cell's entry, so the loops fill the whole buffer. |
| Terrain.ProgressBlend | Assets/scripts/proceduralTerrain.cs:144-148 | One pass of the inner widening loop: blending the in-bounds point `(ix + dx, iz + dz)` 60% toward the target extends the blended part of the square by that point and leaves every other vertex as it was. |
| Terrain.ProgressSkip | Assets/scripts/proceduralTerrain.cs:146 | A square point outside the grid is skipped: it has no vertex, so the blended part grows by it with the buffer unchanged. |
| Terrain.ProgressNextColumn | Assets/scripts/proceduralTerrain.cs:140-142 | Finishing column `dx` of the square (all `dz` from `-radius` to `radius`) is the same state as starting column `dx + 1`. |
| Terrain.SampleCarvedToward | Assets/scripts/proceduralTerrain.cs:136-148 | A buffer carved exactly as one sample prescribes keeps every horizontal position, moves every height only toward the target, and leaves the sampled vertex at or below it. |
| Terrain.CarveSample | Assets/scripts/proceduralTerrain.cs:132-150 | One corridor sample, exactly: the sampled vertex `(ix, iz)` is first lowered to `min(y, targetY)`; then every in-bounds vertex in the square of radius `radius` around it is blended once, 60% of the way toward `targetY`; every vertex outside that square, other than the sample, is unchanged. Hence horizontal positions are unchanged, every height moves only toward `targetY`, and the sampled vertex ends at or below it. |
| Terrain.CarveCorridor | Assets/scripts/proceduralTerrain.cs:124-151 | For every `s` from 0 to `steps`, the grid point nearest the point at fraction `s / steps` from `from` to `to` (`SampleCell`), when it lies inside the grid, ends at or below the tower height less 0.1. Horizontal positions are unchanged and every height moves only toward that target. Every vertex outside the square of radius `ceil(pathWidth)` around every in-bounds sample (`OffSamples`) is unchanged. |
| Terrain.CarvedStaysBelow | Assets/scripts/proceduralTerrain.cs:136-148 | A height already at or below the target stays there under further carving toward it. |
| Terrain.CorridorStaysCarved | Assets/scripts/proceduralTerrain.cs:107-152 | A carved corridor stays carved while later corridors are carved toward the same target. |
| Terrain.PathsCarvedExtend | Assets/scripts/proceduralTerrain.cs:107-152 | Carving one more corridor adds one more carved path. |
| Terrain.PathsStayCarved | Assets/scripts/proceduralTerrain.cs:107-152 | The corridors carved so far stay carved while later corridors are carved toward the same target. |
| Terrain.PathsCarvedSameStarts | Assets/scripts/proceduralTerrain.cs:154-168 | Whether a corridor is carved depends only on the horizontal position of its start, so snapping a spawn point's height keeps its corridor carved. |
| Terrain.StartsAtEdgesExtend | Assets/scripts/proceduralTerrain.cs:117-121 | Recording path `p`'s spawn point as its edge vertex extends the spawn points that sit at their edge vertices by one. |
| Terrain.StartsStayAtEdges | Assets/scripts/proceduralTerrain.cs:124-151 | Carving keeps horizontal positions, so spawn points stay at their edge vertices' horizontal positions. |
| Terrain.KeptOffPathsSameStarts | Assets/scripts/proceduralTerrain.cs:154-168 | Which vertices lie off the corridors depends only on the horizontal positions of the spawn points, so snapping their heights keeps the untouched vertices' guarantee. |
| Terrain.KeptOffPathsExtend | Assets/scripts/proceduralTerrain.cs:107-152 | A vertex off all of the first `p + 1` corridors is untouched by the first `p` and by corridor `p`, so it is still as before any carving. |
| Terrain.CarvedPathStep | Assets/scripts/proceduralTerrain.cs:107-152 | One pass of the path loop: after recording path `p`'s spawn point and carving its corridor, heights have still only moved toward the target, the spawn points sit at their edge vertices, the first `p + 1` corridors are carved, and every vertex off all of them is as before any carving. |
| Terrain.ProceduralTerrain.constructor | Assets/scripts/proceduralTerrain.cs:9-27 | The settings are stored; there are no spawn points, no mesh and no tower yet. |
| Terrain.ProceduralTerrain.View | Assets/scripts/proceduralTerrain.cs:21-27 | The view exposes the vertices exactly when a mesh exists. |
| Terrain.ProceduralTerrain.CarvePaths | Assets/scripts/proceduralTerrain.cs:97-175 | Exactly `numberOfPaths` spawn points. Vertices keep their horizontal positions. Heights move only toward the fixed target: the pre-carve centre height less 0.1. With no paths the vertices are unchanged. Each spawn point equals the post-carve vertex of its edge point. For every path, every in-bounds sample of the corridor from its spawn point to the pre-carve centre vertex, in `Max(30, gridSize)` steps, ends at or below the target. Every vertex off all the corridors (outside the square of radius `ceil(pathWidth)` around every in-bounds sample of every path) is unchanged. The mesh receives the carved vertices. |
| Terrain.ProceduralTerrain.SnapSpawnPoints | Assets/scripts/proceduralTerrain.cs:154-168 | Given spawn points at the horizontal positions of their edge vertices, afterwards each spawn point is exactly its edge vertex, height included, and their number is unchanged. |
| Terrain.SnapRecoversGridPoint | Assets/scripts/proceduralTerrain.cs:157-161 | A spawn point at its edge vertex's horizontal position rounds back to that vertex, so the snap always finds it. |
| Terrain.GridVertexSnaps | Assets/scripts/proceduralTerrain.cs:158-161 | On a laid-out grid, every vertex's horizontal position divided by the cell size rounds back to its own grid coordinates. |
| Terrain.ProceduralTerrain.BuildMesh | Assets/scripts/proceduralTerrain.cs:38-95 | The mesh has the grid layout and `gridSize² * 6` triangle indices in cell order. Every height lies between its noise height and the initial centre height less 0.1; with no paths every height is its noise height. The spawn points lie on the carved surface. Every corridor from a spawn point to the centre grid point is carved at or below the initial centre height less 0.1. Every vertex off all the corridors is exactly its noise grid point, `(x * cellSize, noise(x, z), z * cellSize)`. |
| Terrain.ProceduralTerrain.PlaceTowerAtCenter | Assets/scripts/proceduralTerrain.cs:177-190 | Without a prefab or a mesh nothing happens. Otherwise the tower, replacing any earlier one, stands on the mesh's centre vertex. |
| Terrain.ProceduralTerrain.Start | Assets/scripts/proceduralTerrain.cs:30-36 | After start-up the mesh, the spawn points and the carved corridors are exactly as `BuildMesh` promises: grid layout, triangles in cell order, heights between noise and target, spawn points on the carved surface, every corridor carved, and every vertex off the corridors at its noise height. With a prefab, the tower stands on the carved centre vertex. |
| Placement.CenterWorld | Assets/scripts/defenderManager.cs:55 | The clearance centre is on the diagonal at height 0. |
| Placement.SampleAtGridVertex | Assets/scripts/defenderManager.cs:64-70 | On a full vertex buffer the clamped lookup reads the sample's own vertex. The sample sits `placementHeight` above it, at `(x * cell, z * cell)`. |
| Placement.KeptSnoc | Assets/scripts/defenderManager.cs:97-101 | One more sample is appended exactly when fewer than the cap are kept and it is clear. |
| Placement.KeptIsCappedAccepted | Assets/scripts/defenderManager.cs:59-101 | What the scan keeps is the in-order list of all clear samples, cut to its first `max(0, maxPositions)` entries. |
| Placement.AcceptedAreClear | Assets/scripts/defenderManager.cs:72-97 | Every accepted sample passed both clearance tests. |
| Placement.AcceptedFromSamples | Assets/scripts/defenderManager.cs:97-100 | Every accepted sample is one of the visited samples. |
| Placement.KeptAreClearAndCapped | Assets/scripts/defenderManager.cs:59-101 | At most `max(0, maxPositions)` positions are kept. Each is a visited sample at horizontal distance at least `minDistanceFromPath` from every spawn point and at least half of it from the centre. |
| Placement.KeptSaturated | Assets/scripts/defenderManager.cs:59-61 | Once the cap is reached, later samples change nothing, so stopping both loops early is sound. |
| Placement.AxisAdvance | Assets/scripts/defenderManager.cs:59-61 | Stepping a coordinate by `sampleStep` moves it from the remaining stride to the visited part. |
| Placement.RowSnoc | Assets/scripts/defenderManager.cs:61 | Sampling one more `z` appends that sample to the column. |
| Placement.RowAppend | Assets/scripts/defenderManager.cs:61 | A column's samples over two runs of `z` are the first run's followed by the second's. |
| Placement.ScanSnoc | Assets/scripts/defenderManager.cs:59 | One more column appends its samples. |
| Placement.ScanAppend | Assets/scripts/defenderManager.cs:59 | The samples over two runs of columns are the first run's followed by the second's. |
| Placement.KeptStops | Assets/scripts/defenderManager.cs:59-61 | Leaving a loop early because the cap is reached loses nothing: the samples it skips would not have been kept. |
| Placement.ConsiderSample | Assets/scripts/defenderManager.cs:63-101 | The sample at `(x, z)` is kept exactly as the keep-while-under-cap rule says. |
| Placement.ScanColumn | Assets/scripts/defenderManager.cs:61-102 | The inner loop keeps exactly what the rule keeps from the earlier samples followed by this column's. |
| Placement.ScanKept | Assets/scripts/defenderManager.cs:59-103 | The nested strided loops keep exactly what the rule keeps from every candidate, visited with x outer and z inner, 0 to grid in steps of `sampleStep`. |
| Placement.ScanNextColumn | Assets/scripts/defenderManager.cs:59-103 | One pass of the outer loop: column `x` is scanned and moved to the visited columns, and what is kept is what the rule keeps from every sample visited so far. |
| Placement.NearSpawnPoint | Assets/scripts/defenderManager.cs:74-87 | The early-exit loop reports a spawn point closer than `minDistanceFromPath` if and only if one exists. |
| Placement.DefenderManager.constructor | Assets/scripts/defenderManager.cs:11-22 | The settings are stored; the slot lists are empty. |
| Placement.DefenderManager.GenerateDefenderPositions | Assets/scripts/defenderManager.cs:46-106 | The slots are exactly what the scan keeps. The positions and occupancy lists have equal length, and every slot is free. |
| Placement.DefenderManager.PlaceDefender | Assets/scripts/defenderManager.cs:108-116 | A missing prefab, a bad index or a taken slot changes nothing. Otherwise only that slot becomes occupied and one defender is placed at its position, so a second call on the same index places nothing. |
| Placement.DefenderManager.Start | Assets/scripts/defenderManager.cs:24-44 | Without a terrain or mesh nothing changes. Otherwise the slots are generated; with auto-placement and a prefab, each slot receives exactly one defender, in order. |
| Enemies.Enemy.constructor | Assets/scripts/enemy.cs:7-11 | A new enemy has the prefab's speed and health, no path, cursor 0 and no destroy request. |
| Enemies.Enemy.Update | Assets/scripts/enemy.cs:13-28 | Nothing happens without a path. Otherwise the enemy moves toward the current waypoint. The cursor advances by exactly one only when the enemy ends closer than 0.1 to that waypoint, and passing the last waypoint requests destruction. The cursor stays within the path. |
| Enemies.Enemy.SetTarget | Assets/scripts/enemy.cs:30-34 | The path is replaced and the cursor reset to 0. |
| Enemies.Enemy.TakeDamage | Assets/scripts/enemy.cs:36-40 | Health drops by the amount, with no floor, so it may go negative. Destruction is requested whenever health is not positive. |
| Combat.Nearest | Assets/scripts/defender.cs:37-50 | The reference scan returns an index inside the list, or none. |
| Combat.NearestIsNearest | Assets/scripts/defender.cs:40-47 | The reference scan returns none exactly when no enemy is in range. Otherwise it returns an in-range enemy no farther than any in-range one, and every earlier in-range enemy is strictly farther (the first wins a tie). |
| Combat.NearestIsUnique | Assets/scripts/defender.cs:40-47 | At most one answer meets that specification, so the scan's answer is determined. |
| Combat.FindClosestEnemy | Assets/scripts/defender.cs:34-51 | The running-minimum loop shared with the tower (towerAttack.cs 27-44) returns null exactly when no enemy is within `attackRange`. Otherwise it returns the nearest in-range enemy, the earliest on a tie. The answer is the reference scan's `Nearest`. |
| Combat.Strike | Assets/scripts/defender.cs:25-29 | The target is the nearest in range. Only the target takes the damage, once, and requests destruction if its health is no longer positive. Every other enemy is untouched, and no enemy's position, path or cursor can change: only health and destroy requests are in the frame. |
| Health.Damaged | Assets/scripts/defender.cs:55-56 | Health after a hit lies in `[0, max]` when `max >= 0`. It equals `current - amount` when that is in range, and it never rises for a non-negative hit from non-negative health. With `max > 0` it is 0 exactly when `current - amount <= 0`. |
| Health.HitsNeverHeal | Assets/scripts/towerHealth.cs:22-23 | Any run of non-negative hits leaves health in `[0, current]`. |
| Health.ClampedVersusUnclamped | Assets/scripts/towerHealth.cs:22-23 | Clamped damage agrees with the enemy's unclamped damage exactly while the result is non-negative, and is never below it. |
| Defenders.Defender.constructor | Assets/scripts/defender.cs:7-13 | The settings are stored; health is 0 before `Start` and the timer starts at 0. |
| Defenders.Defender.Start | Assets/scripts/defender.cs:15-18 | Health starts at `maxHealth`. |
| Defenders.Defender.Update | Assets/scripts/defender.cs:20-32 | The timer runs down by `dt`. While it is positive nothing is hit. Otherwise the nearest in-range enemy, if any, is hit once for `damage`, and the timer is rewound to `attackInterval` only then. Only the timer and the enemies' health and destroy requests can change. |
| Defenders.Defender.TakeDamage | Assets/scripts/defender.cs:53-62 | Health becomes the clamped value, and destruction is requested exactly when it is 0 or less. |
| Towers.TowerAttack.constructor | Assets/scripts/towerAttack.cs:7-11 | The timer starts at 0, so the first frame with `dt >= 0` already looks for a target. |
| Towers.TowerAttack.Update | Assets/scripts/towerAttack.cs:13-25 | As for defenders: at most one hit of exactly `damage` on the nearest in-range enemy, and the timer is rewound only after a hit. A miss leaves the timer not positive, so the next frame looks again. Only the timer and the enemies' health and destroy requests can change. |
| Towers.TowerHealth.constructor | Assets/scripts/towerHealth.cs:8-9 | Health is 0 before `Start`; the tower has not died. |
| Towers.TowerHealth.Start | Assets/scripts/towerHealth.cs:14-18 | Health starts at `maxHealth`. |
| Towers.TowerHealth.TakeDamage | Assets/scripts/towerHealth.cs:20-30 | Health becomes the clamped value. The tower dies on every hit that leaves it at 0, including one after it has already died. |
| Towers.TowerHealth.Die | Assets/scripts/towerHealth.cs:40-45 | Each call is one more destroy request. |
| Spawning.Picked | Assets/scripts/enemySpawner.cs:48-49 | The `k`-th firing picks the spawn point its draw names, and every draw lies in `[0, spawnPoints.Length)`. |
| Spawning.Firings | Assets/scripts/enemySpawner.cs:35 | The loop fires while the count is below `maxEnemies`: never more firings than draws, never past the cap, and it stops early only at the cap. |
| Spawning.EnemySpawner.constructor | Assets/scripts/enemySpawner.cs:7-15 | The settings are stored and nothing has been spawned. |
| Spawning.EnemySpawner.SpawnEnemy | Assets/scripts/enemySpawner.cs:42-66 | The guard leaves everything unchanged. Otherwise one object is instantiated at the drawn spawn point and the count goes up by exactly one, even without an enemy component. With one, the new enemy's path is exactly `[spawn point, tower]` with cursor 0. |
| Spawning.EnemySpawner.SpawnLoop | Assets/scripts/enemySpawner.cs:33-40 | Each firing spawns at its draw's spawn point until the count reaches `maxEnemies`. Given enough firings the count ends at `max(old count, maxEnemies)`. Every new enemy walks from its spawn point to the tower. |
| Spawning.EnemySpawner.Start | Assets/scripts/enemySpawner.cs:17-31 | The loop runs only with a terrain whose spawn points are set and non-empty, and a tower. Then the count and the instantiated positions are those of the loop; earlier enemies stay in place, and every new enemy is fresh and walks from its draw's spawn point to the tower. |

## Left out

- **Noise and seed.** Perlin noise, `heightScale`, `noiseScale`, the seed and its random draw become one parameter, `noise(x, z)`: the initial height of each grid point.
- **Random draws.** `Random.Range` draws are inputs checked against their half-open ranges: `EdgePick` for corridor starts, `rolls` for spawn points.
- **Rendering and engine plumbing.** UVs, normals, the collider reassignment, the mesh name, gizmos, the UI slider, `Debug.Log` and the tested/rejected counters are not modelled.
- **Floating point.** Heights, timers and positions are exact reals, so IEEE rounding is not modelled. `RoundToInt` rounds halves to even, as the engine documents.
- **Transforms.** `TransformPoint` is the identity: local and world positions coincide.
- **Object lifecycle.** Destruction is a request counter. Removal at the end of the frame and the live-enemy query are not modelled: every attacker receives the live enemies as an explicit, duplicate-free sequence. `Instantiate` of defenders and enemies appends to a sequence. Replacing the tower instance is replacing an optional position.
- **Coroutine timing.** `WaitForSeconds(spawnInterval)` is not modelled. The spawn loop consumes one draw per firing, so `spawnInterval` is stored but unused.
- **Movement.** `MoveTowards` is a parameter of `Enemy.Update`. The no-overshoot clamp and the time an enemy needs to reach the tower are therefore not modelled.
- **Unused field.** `Enemy.terrain` (assigned at Assets/scripts/enemySpawner.cs:62) is never read, so it is not modelled.
- **Terrain lookup.** `FindObjectOfType` is not modelled: a missing terrain is `None`. Engine ordering of the `Start` calls is also left to the caller.
- **Terrain members the other scripts use.** `DefenderManager` reads `terrain.width` and `terrain.Mesh`; `EnemySpawner` reads `terrain.towerInstance`. The terrain class does not expose these publicly, so both scripts take a `TerrainView` instead.
- Terrain.ProceduralTerrain.BuildMesh (and `Start` and the carving they call): requires `cellSize != 0`, `gridSize >= 0` and `numberOfPaths >= 0`. With `cellSize == 0` the divisions at Assets/scripts/proceduralTerrain.cs:130-131 and :158-159 give NaN or an infinity, and the outcome depends on the platform's float-to-int conversion: where it yields `int.MinValue` (x86) the bounds tests at :132 and :162 skip every sample and every snap; where it yields 0 (ARM) every vertex sits at (0, 0), so every sample and every snap lands on grid point (0, 0) and is processed. Exact reals cannot express either. With `gridSize == -1` the vertex buffer is empty and the centre lookup at :104 is out of range; smaller sizes make `(gridSize + 1)²` positive again and the model does not follow them. A negative `numberOfPaths` fails allocating the spawn-point array at :100.
- Placement.DefenderManager.GenerateDefenderPositions (and `Start`): requires `sampleStep >= 1`. With `sampleStep <= 0` the loop counters at Assets/scripts/defenderManager.cs:59-61 never pass the grid size: when `maxPositions <= 0` no sample is visited; otherwise the loops stop only once `maxPositions` samples are kept, so with `sampleStep == 0` they keep `maxPositions` copies of the sample at (0, 0) when it is clear and run forever when it is not, and with a negative step they walk into negative coordinates until enough clamped samples are kept. The model does not cover these strides. It also requires a non-empty vertex buffer: with an empty one, every visited sample's clamp to `Length - 1` at :68 leads to a read outside the buffer at :69.
- Enemies.Enemy.Update: requires that the cursor has not passed the end of a non-empty path. An enemy that has passed it was destroyed at the end of that frame and gets no further frame.
- Terrain.CarveCorridor: states exactly which vertices stay untouched, that every in-bounds sample ends at or below the target and that every height moves only toward it, but not the exact height of a vertex that several overlapping squares blend in turn, because those 60% blends compound sample after sample; `CarveSample` states the exact effect of each single sample.
- Terrain.ProceduralTerrain.CarvePaths: states the same over all paths' corridors, for the same reason.
- Terrain.ProceduralTerrain.Start: states what `BuildMesh` states about the heights, for the same reason.
- **32-bit integers.** Integers are unbounded, so wrap-around is not modelled: `gridSize * gridSize * 6` at Assets/scripts/proceduralTerrain.cs:50 and `(gridSize + 1)²` at :48 overflow for grid sizes above about 18,900 and 46,340, the index `z * vertsPerRow + x` likewise, and repeated health subtractions at Assets/scripts/enemy.cs:38, Assets/scripts/defender.cs:55 and Assets/scripts/towerHealth.cs:22 could wrap below `int.MinValue`.
- Terrain.ProceduralTerrain.BuildMesh: bounds each final height on the corridors between its noise height and the target instead of giving its exact value; off the corridors the height is exact.
- Terrain.ProceduralTerrain.SnapSpawnPoints: the contract does not describe the out-of-bounds fallback (keeping the point as it is), because `SnapRecoversGridPoint` proves that with exact arithmetic the rounded coordinates always lie inside the grid.

## Notes on the code

- **No already-destroyed guard.** Assets/scripts/enemy.cs:38-39, Assets/scripts/defender.cs:58-61 and Assets/scripts/towerHealth.cs:26-29 request destruction on every hit that leaves health at or below 0, including hits after an earlier one already did. The counters `destroyRequests` and `deaths` record each request.
- **Enemy health has no floor.** Assets/scripts/enemy.cs:38 subtracts without clamping, while Assets/scripts/defender.cs:56 and Assets/scripts/towerHealth.cs:23 clamp into `[0, maxHealth]`. `Health.ClampedVersusUnclamped` compares the two.
- **Same-tick targeting.** `Destroy` takes effect at the end of the frame, so an enemy killed at Assets/scripts/defender.cs:28 is still found by `FindObjectsOfType` at :36 for every other attacker in the same frame.
- **First waypoint.** Assets/scripts/enemySpawner.cs:58 makes the enemy's own spawn position its first waypoint, so its first frame aims at where it stands.
- **Clearance centre.** Assets/scripts/defenderManager.cs:55 centres the clearance at `(grid / 2f) * cell`, a real half, while Assets/scripts/proceduralTerrain.cs:182-185 puts the tower on the vertex at the integer half `gridSize / 2`. For an odd grid the clearance disc is half a cell off the tower.
- **Grid with no cells.** With `gridSize == 0` the code builds one vertex, an empty triangle buffer and corridors that all sample that one vertex; the model covers this case.
