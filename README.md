# Particle physics core, modelled in Dafny

This project models the particle-physics pipeline of a browser particle
sandbox written in TypeScript. The sandbox keeps its particles in one of
two shapes: an array of particle records (`x, y, vx, vy, r, m, invM, heat`,
colour), or a flat buffer with eight slots per particle. Each frame it
builds a uniform spatial-hash grid, integrates forces with a
semi-implicit Euler step (optionally clamped), resolves circle
collisions, and enforces one of five boundary policies. Around that sit
the 32-bit LCG and the wells generator built on it, the buffer
serialiser, bilinear sampling of precomputed noise grids, the particle
rebuild rule, the rolling FPS window with its adaptive collision toggle,
and the per-frame orchestrator (pause, single-step, substeps).

The repository has several near-duplicate copies of the pipeline. The
model has one set of per-particle kernels (`ForceKernel`,
`ContactKernel`, `WallKernel`) parametrised by what differs between the
copies:

- clamps on or off;
- container restitution 0 or `restitution`;
- the degenerate collision normal: fixed `(1,0)`, a random unit vector,
  or `(0,0)`;
- the 3x3 neighbourhood or the sorted neighbourhood capped at 64.

Each copy then has its own module with the loops of its source file:

- `FlatForces`, `FlatCollisions`, `FlatBoundaries`, `FlatGrid` and
  `WorkerStep` work in place on a flat `array<real>` buffer.
- `MainLoopPhysics`, `ClampedLoopPhysics`, `RecordGrid`, `Particles` and
  `Frame` update the fields of the `SimState.World` object, the
  counterpart of the global `State`.

Each loop is proved against a specification function. The laws the
source promises are proved as lemmas about those functions: containment
after a boundary clamp, momentum kept by every impulse, heat bounds, the
bucket and neighbour laws of the grid, the buffer round trip, the LCG
recurrence, the FPS window, and the `running`/`stepOnce` state machine.

Modelling conventions:

- Numbers are Dafny `real`. `JsNumber` gives the JavaScript operations
  the code uses: `Math.trunc/floor/ceil/round`, `|0` and `>>>0` as
  `ToInt32`/`ToUint32` (wrap-around written out), `Math.max/min`, and
  `a || b` on numbers.
- `Math.sqrt`, `Math.hypot`, `Math.sin`, `Math.cos` and `Math.PI` are
  the fields of a `MathFns` value. The only law assumed of them is
  `SqrtLaw`: for `x >= 0`, `sqrt(x) >= 0` and `sqrt(x)*sqrt(x) == x`.
  It is taken as a precondition.
- `Math.random()` is a `RandomSource` object: a fixed stream
  `draw: nat -> real` of values in `[0, 1)` and a counter of the values
  used so far.
- Strings are `seq<char>`.

## Model

| member | source | states |
|---|---|---|
| Utils.Clamp | src/utils/utils.ts:1 | For `a <= b` the result lies in `[a, b]`. It is `x` when `x` is inside, `a` when `x < a`, and `b` when `x` is above `b` (and not below `a`). |
| Utils.Lerp | src/utils/utils.ts:2 | `lerp(a, b, 0) == a` and `lerp(a, b, 1) == b`. |
| Utils.LerpBetween | src/utils/utils.ts:2 | For a weight `t` in `[0, 1]`, the blend lies between `min(a, b)` and `max(a, b)`. |
| Utils.Rand | src/utils/utils.ts:3 | For a draw in `[0, 1)`: the result lies in `[a, b)` when `a < b`, and is `a` when `a == b`. |
| Utils.RandInt | src/utils/utils.ts:4 | For a draw in `[0, 1)` and integers `a <= b`, the result is an integer in `[a, b]`. |
| Utils.LcgSeed | src/utils/utils.ts:95 | The initial state lies in `(0, 2^32)`. It is `seed >>> 0`, or 1 when that is 0. |
| Utils.LcgStep | src/utils/utils.ts:96 | The next state lies in `[0, 2^32)` and is congruent to `1664525*s + 1013904223` modulo `2^32`. |
| Utils.LcgOutputInUnit | src/utils/utils.ts:96 | Every returned value `s / 2^32` lies in `[0, 1)`. |
| Utils.LcgOutputs | src/utils/utils.ts:94-97 | The first `n` values of a generator: exactly `n` of them, all in `[0, 1)`. |
| Utils.LcgOutputsAt | src/utils/utils.ts:94-97 | Value `k` is the output of the state after `k+1` steps of the recurrence. |
| Utils.LcgZeroSeedIsOne | src/utils/utils.ts:95 | A seed that is 0 after `>>> 0` yields the same values as seed 1. |
| Utils.StateZeroSeedIsOne | src/utils/utils.ts:95 | A seed that is 0 after `>>> 0` goes through the same states as seed 1. |
| Utils.Lcg.constructor | src/utils/utils.ts:94-95 | The captured state starts at `LcgSeed(seed)`. |
| Utils.Lcg.Next | src/utils/utils.ts:96 | A call advances the state by one step of the recurrence and returns the new state over `2^32`, a value in `[0, 1)`. |
| Utils.DrawLcg | src/utils/utils.ts:94-97 | `n` calls on a fresh generator return exactly `LcgOutputs(seed, n)`. |
| Utils.TwoGenerators | src/utils/utils.ts:94-97 | Two generators built from the same seed, called alternately, return identical sequences. Both equal `LcgOutputs(seed, n)`. |
| Utils.MapBoundaries | src/utils/utils.ts:98-102 | `bounce` becomes `screen-bounce`, `wrap` becomes `screen-wrap`, and any other name is returned unchanged. |
| Utils.MapBoundariesIdempotent | src/utils/utils.ts:98-102 | Mapping twice is the same as mapping once. |
| Utils.HexWithAlpha | src/utils/utils.ts:8-9 | An empty string, or one not starting with `#`, is returned unchanged. |
| Utils.ChannelParse | src/utils/utils.ts:10-12 | For a well-formed `#rrggbb`, `parseInt` of each two-digit slice in radix 16 is the value of that hex pair. |
| Utils.HexWithAlphaOfColour | src/utils/utils.ts:8-14 | For a well-formed `#rrggbb`, the result is `rgba(r,g,b,a)`. Each channel is the decimal text of its hex pair's value, and the alpha is the given text. |
| PhysicsUtils.Fields | src/sim/physics/utils.ts:9-17 | The eight slots of a particle, in the order `X, Y, VX, VY, R, M, INV_M, HEAT`. |
| PhysicsUtils.Pack | src/sim/physics/utils.ts:5-6 | The image of `n` particles has `n*8` slots. |
| PhysicsUtils.PackAt | src/sim/physics/utils.ts:9-17 | Slot `i*8+k` of the image holds field `k` of particle `i`. |
| PhysicsUtils.PackWhole | src/sim/physics/utils.ts:5-6 | The image of a list is a whole buffer holding as many particles as the list. |
| PhysicsUtils.Unpack | src/sim/physics/utils.ts:22-23 | Reading a buffer back gives `length / 8` particles. |
| PhysicsUtils.UnpackAt | src/sim/physics/utils.ts:25-37 | Entry `i` of the read-back list is the particle stored in slots `i*8 .. i*8+7`, with colour `''`. |
| PhysicsUtils.RecPack | src/sim/physics/utils.ts:4-37 | The particle stored at index `i` of a list's image is particle `i` of the list with colour `''`. |
| PhysicsUtils.UnpackPack | src/sim/physics/utils.ts:4-40 | The round trip `float32ArrayToParticles(particlesToFloat32Array(ps))` keeps the length and every numeric field of every particle, and sets each colour to `''`. |
| PhysicsUtils.PackUnpack | src/sim/physics/utils.ts:4-40 | A whole buffer, read back and written out again, is the same buffer. |
| PhysicsUtils.StoreParticle | src/sim/physics/utils.ts:9-17 | All eight slots of particle `i` are written from `p`, in slot order, and nothing else changes. |
| PhysicsUtils.ParticlesToFloat32Array | src/sim/physics/utils.ts:4-20 | The method returns a fresh array whose contents are the image of the list. |
| PhysicsUtils.Float32ArrayToParticles | src/sim/physics/utils.ts:22-40 | The method returns exactly the read-back list of the buffer. |
| PhysicsUtils.MaxRadius | src/sim/physics/utils.ts:42-49 | The running maximum is `>= 0` and `>=` every radius. It is 0 for an empty buffer, and otherwise 0 or one of the radii. |
| PhysicsUtils.GetMaxRadius | src/sim/physics/utils.ts:42-49 | The loop returns the maximum of 0 and every radius of the buffer. |
| SpatialHash.CellCoord | src/sim/physics/grid.ts:13 | `(v / cell) \| 0` is a signed 32-bit integer. |
| SpatialHash.SmallKey | src/sim/physics/grid.ts:14 | For cell coordinates in `[0, 2^16)`, the key `(cx << 16) ^ cy` is `cx * 2^16 + cy`. |
| SpatialHash.KeyInjective | src/sim/physics/grid.ts:14 | Cells whose coordinates both lie in `[0, 2^16)` have distinct keys. |
| SpatialHash.KeyWrapsBelowZero | src/sim/physics/grid.ts:14 | Outside that range keys collide: the cell at `cx = -1` has the same key as the cell at `cx = 65535`. |
| SpatialHash.BucketMembers | src/sim/physics/grid.ts:11-18 | A bucket lists exactly the indices below `n` whose key is its key. |
| SpatialHash.BucketIncreasing | src/sim/physics/grid.ts:11-18 | Each bucket lists its indices in strictly increasing order. |
| SpatialHash.GridOfStep | src/sim/physics/grid.ts:15-17 | Inserting index `n` appends `n` to the bucket of its key, creating the bucket when it is missing. |
| SpatialHash.GridHas | src/sim/physics/grid.ts:11-18 | Every index below `n` sits in the bucket of its own key. |
| SpatialHash.GridOnly | src/sim/physics/grid.ts:11-18 | A bucket holds only indices below `n` whose key it is, so no index is in two buckets. |
| SpatialHash.GridIncreasing | src/sim/physics/grid.ts:11-18 | Every bucket of the built map lists its indices in increasing order. |
| SpatialHash.WithoutMembers | src/sim/physics/grid.ts:30 | The `j !== i` filter keeps exactly the entries other than `i`. |
| SpatialHash.ScanComplete | src/sim/physics/grid.ts:26-32 | Over a built map, the scan around `(cx, cy)` finds every index other than `i` whose key is the key of a cell within `range` on both axes. |
| SpatialHash.ScanFindsNear | src/sim/physics/grid.ts:26-32 | Every other point whose cell is within `range` of `(cx, cy)` on both axes is found by the scan. |
| SpatialHash.ScanSound | src/sim/physics/grid.ts:26-32 | The scan returns only indices below `n`, never `i`, each with the key of one of the scanned cells. |
| SpatialHash.AppendOthers | src/sim/physics/grid.ts:30 | The innermost loop appends the bucket's entries other than `i`, in bucket order. |
| SpatialHash.HashGrid.constructor | src/sim/physics/grid.ts:4 | The map starts empty. |
| SpatialHash.HashGrid.Rebuild | src/sim/physics/grid.ts:8-18 | After `grid.clear()` and the insertion loop, the map is exactly the grid of the points' keys. It depends only on the points and the cell size, so rebuilding unchanged points gives the same map. |
| SpatialHash.HashGrid.Gather | src/sim/physics/grid.ts:26-32 | The two offset loops return the scan of every cell within `range`: `ox` outer, `oy` inner, bucket order inside, `i` skipped. |
| SpatialHash.HashGrid.GatherColumn | src/sim/physics/grid.ts:27-31 | The inner offset loop appends the scan of column `ox` for `oy` from `-range` to `range`. |
| FlatGrid.Positions | src/sim/physics/grid.ts:12-13 | The `(X, Y)` slots of every particle of a whole buffer: one point per particle. |
| FlatGrid.CellSize | src/sim/physics/grid.ts:9 | `max(8, 2*maxRadius)`: never below 8 or below `2*maxRadius`, and equal to one of them. |
| FlatGrid.SearchRangeOfBuild | src/sim/physics/grid.ts:9-25 | With the cell size the build chose, `ceil(2*maxRadius/gridCell)` is 0 or 1, and it is 1 when `maxRadius > 0`. |
| FlatGrid.Insert | src/sim/physics/grid.ts:34-39 | One insertion step of the sort: the result holds the old entries plus `x`, as a multiset. |
| FlatGrid.InsertSorted | src/sim/physics/grid.ts:34-39 | Inserting into a list ordered by distance keeps it ordered. |
| FlatGrid.SortByCorrect | src/sim/physics/grid.ts:34-39 | The sort orders candidates by non-decreasing squared distance to `i`, and the result is a permutation of its input. |
| FlatGrid.Cap | src/sim/physics/grid.ts:41-42 | The cap keeps a prefix of at most 64 entries, and a list of at most 64 unchanged. |
| FlatGrid.ColumnExcludes | src/sim/physics/grid.ts:30 | The scan of a column never yields `i`. |
| FlatGrid.BlockExcludes | src/sim/physics/grid.ts:30 | The scan of a block never yields `i`. |
| FlatGrid.NeighborListExcludesSelf | src/sim/physics/grid.ts:21-44 | `neighbors(i)` returns only candidates of the scan, and never `i`. |
| FlatGrid.NeighborListSorted | src/sim/physics/grid.ts:33-43 | `neighbors(i)` is sorted by non-decreasing squared distance to `i`, and has at most 64 entries. |
| FlatGrid.NeighborsComplete | src/sim/physics/grid.ts:7-32 | Over a map built from this buffer, every other particle whose cell is within `ceil(2*maxRadius/gridCell)` of `i`'s cell on both axes is a candidate. When there are at most 64 candidates, it is in the result. |
| FlatGrid.FlatGrid.constructor | src/sim/physics/grid.ts:4-5 | The map starts empty and `gridCell` starts at 16. |
| FlatGrid.FlatGrid.BuildGrid | src/sim/physics/grid.ts:7-19 | The cell becomes `max(8, 2*maxRadius)`, and the map holds exactly the grid of this buffer at that cell size. |
| FlatGrid.FlatGrid.Neighbors | src/sim/physics/grid.ts:21-44 | The method returns the scan of the cells within the search range, skipping `i`, sorted by distance and capped at 64. |
| RecordGrid.Points | src/sim/grid.ts:6-7 | One position `(x, y)` per particle record, in index order. |
| RecordGrid.BuildGrid | src/sim/grid.ts:2-13 | `State.grid` is cleared and refilled from the current positions, with the cell size read from `State.gridCell`. Nothing else changes, the cell size included. |
| RecordGrid.Neighbors | src/sim/grid.ts:14-27 | The method returns the 3x3 scan around particle `i`'s current cell: unsorted, uncapped, skipping `i`. |
| RecordGrid.BuildPlacesOnce | src/sim/grid.ts:2-13 | After `buildGrid`, particle `j` sits in the bucket of its own truncated cell and in no other bucket. |
| RecordGrid.NeighborsExcludeSelf | src/sim/grid.ts:23 | `neighbors(i)` never returns `i`. |
| RecordGrid.NeighborsFindAdjacent | src/sim/grid.ts:19-25 | Every other particle whose cell at build time is within one cell of `i`'s cell on both axes is returned. |
| RecordGrid.NeighborsAreAdjacent | src/sim/grid.ts:19-25 | Everything returned is another particle of the built array. While the cell coordinates stay in `[0, 2^16)`, its cell is within one cell of `i`'s on both axes. |
| RecordGrid.NeighborsOnce | src/sim/grid.ts:19-25 | While the scanned cells have coordinates in `[0, 2^16)`, a particle of the 3x3 block appears exactly once in `neighbors(i)`. |
| Noise.ClampNode | src/sim/physics/noise.ts:58-61 | `Math.max(0, Math.min(127, k))` lies in `[0, 128)` and is `k` when `k` is already in range. |
| Noise.NodeIndex | src/sim/physics/noise.ts:58-61 | Every index `sampleBilinear` reads lies in `[0, 128*128)`, whatever `x`, `y`, `BW` and `BH` are. For a node in range it is `i + j*128`. |
| Noise.Corners | src/sim/physics/noise.ts:52-65 | The four entries a sample blends, read at the clamped corner indices. |
| Noise.SampleBetweenCorners | src/sim/physics/noise.ts:50-69 | The result of `sampleBilinear` lies between the smallest and the largest of the four corner values it reads. |
| Noise.GridPosition | src/sim/physics/noise.ts:27-54 | For `BW > 0`, the grid position of column `i`'s canvas coordinate is exactly `i`, with no fractional part. |
| Noise.SampleAtNode | src/sim/physics/noise.ts:50-69 | For `BW, BH > 0`, a sample at the canvas point of node `(i, j)` returns the stored entry `arr[i + j*128]`. |
| Noise.IndexBijection | src/sim/physics/noise.ts:25-29 | Every index of `[0, 128*128)` is `i + j*128` for exactly one node `(i, j)` of the grid. |
| Noise.FieldOf | src/sim/physics/noise.ts:25-45 | A field as the precompute leaves it has `128*128` entries. Entry `i + j*128` is the noise value at node `(i, j)`. |
| Noise.FilledStep | src/sim/physics/noise.ts:29-45 | Writing node `(i, j)` extends the filled part of a field by that node and keeps the nodes written before. |
| Noise.FilledColumn | src/sim/physics/noise.ts:25-26 | A finished column `i` is the start of column `i+1`. |
| Noise.FilledAll | src/sim/physics/noise.ts:25-47 | Once the loops have visited every node, each entry was written with its own node's value, so the array is the field. |
| Noise.NoiseFields.constructor | src/sim/physics/noise.ts:6-13 | Before any precompute all eight fields are null, so every getter returns null. |
| Noise.NoiseFields.Precompute | src/sim/physics/noise.ts:15-48 | Each of the eight fields becomes a new array of `128*128` entries, holding exactly that field's values. The getters return the latest arrays. |
| Noise.FillFields | src/sim/physics/noise.ts:16-47 | The eight arrays are new, and after the nested loop each one holds its field. |
| Noise.FillColumn | src/sim/physics/noise.ts:26-46 | One pass of the inner loop fills column `i` of all eight fields and keeps the earlier columns. |
| Noise.FillNode | src/sim/physics/noise.ts:27-45 | The body of the inner loop writes node `(i, j)` of all eight fields at index `i + j*128`. |
| Noise.FillOne | src/sim/physics/noise.ts:32-45 | One write stores node `(i, j)`'s value of one field. |
| Wells.WellsCount | src/sim/physics/forces.ts:10 | `max(1, min(8, round(wellsCount)))` lies in `[1, 8]`. It is the rounded count when that is in range, 1 below the range, and 8 above it. |
| Wells.Draw | src/sim/physics/forces.ts:9-14 | The `k`-th value of the generator seeded with `wellsSeed` lies in `[0, 1)`. |
| Wells.DrawPair | src/sim/physics/forces.ts:13-14 | Two calls on the generator state after `2i` calls return draws `2i` and `2i+1`, and leave the state after `2(i+1)` calls. |
| Wells.WellSign | src/sim/physics/forces.ts:21 | The spin sign is +1 at even indices and -1 at odd ones. |
| Wells.WellAt | src/sim/physics/forces.ts:13-21 | A static well sits at `((0.15 + 0.7u)*BW, (0.15 + 0.7v)*BH)` for its two draws. Every well has the sign of its index. |
| Wells.WellList | src/sim/physics/forces.ts:12-22 | The first `k` wells of a layout: exactly `k` of them. |
| Wells.WellsSpec | src/sim/physics/forces.ts:8-24 | The layout has `max(1, min(8, round(wellsCount)))` wells. |
| Wells.WellListAt | src/sim/physics/forces.ts:12-22 | Well `i` of the list is the one its own two draws give. |
| Wells.WellStep | src/sim/physics/forces.ts:13-21 | Appending the well built from the next two draws extends the list by one well. |
| Wells.ComputeWellsPositions | src/sim/physics/forces.ts:8-24 | The loop, two generator calls per well, returns exactly the layout `WellsSpec`. The same function appears at src/sim/physics-forces.ts:8-23. |
| Wells.CanvasExtent | src/sim/physics/wells.ts:7 | `(canvas?.width \|\| 0) / DPR` is 0 without a canvas, and otherwise a value whose product with `DPR` is the canvas size. |
| Wells.ComputeWellsFromState | src/sim/physics/wells.ts:5-22 | The global-state variant returns the same layout, for the extent read from the canvas and the pixel ratio. |
| Wells.WellsSigns | src/sim/physics/wells.ts:19 | The signs of a layout alternate, starting from +1 at index 0. |
| Wells.SignFlips | src/sim/physics/wells.ts:19 | Consecutive wells have opposite signs. |
| Wells.PlaceInMiddle | src/sim/physics/wells.ts:11-13 | A draw in `[0, 1)` lands in the middle 70% of a positive extent. |
| Wells.StaticWellsInMiddle | src/sim/physics/wells.ts:7-14 | With `wellsMove` off and a canvas of positive size, every well lies in `[0.15*BW, 0.85*BW) x [0.15*BH, 0.85*BH)`. |
| Wells.StaticWellsTimeless | src/sim/physics/wells.ts:14-18 | With `wellsMove` off, the layout does not depend on the time. |
| Wells.ZeroCanvasWellsAtOrigin | src/sim/physics/wells.ts:13-18 | On a zero-sized canvas every well is at `(0, 0)`, moving or not. |
| Wells.NoCanvasWellsAtOrigin | src/sim/physics/wells.ts:7 | Without a canvas, `BW = BH = 0`, so every well of the global-state variant is at `(0, 0)`. |
| Wells.WellDraws | src/sim/physics/wells.ts:6-12 | The wells use the generator's first `2n` values, two per well and in order. The same seed, count, time and canvas therefore give identical wells. |
| ForceKernel.BaseAccel | src/sim/physics-forces.ts:44-47 | The base acceleration is `(dir*gravity*tilt + wind) * invM` on each axis. |
| ForceKernel.BaseAccelTimesMass | src/sim/physics-forces.ts:44-47 | With `invM = 1/m`, mass times the base acceleration is the gravity-plus-wind force `dir*gravity*tilt + wind`. |
| ForceKernel.PointerAccel | src/sim/physics-forces.ts:122-146 | The pointer adds nothing when it is inactive, its tool is `'none'` or unknown, or the squared distance is at least `radius^2`. For non-negative strength and inverse mass, `'attract'` never pushes away from the pointer, `'repel'` never pulls in, and `'spin'` acts at right angles. |
| ForceKernel.ToolAccel | src/sim/physics-forces.ts:128-144 | The four tools give: `'attract'` along `-n`, `'repel'` along `n`, `'push'` the pointer motion, and `'spin'` a right angle to `n`. Any other tool gives nothing. |
| ForceKernel.RadialComponent | src/sim/physics/forces.ts:80-94 | Along the unit direction, a non-negative magnitude points away from the pointer, its negation points toward it, and the spin term is orthogonal. |
| ForceKernel.Limit | src/sim/physics/forces.ts:105-106 | `Math.max(-lim, Math.min(lim, v))` lies in `[-lim, lim]` and is `v` when `v` is inside. |
| ForceKernel.HeatGain | src/sim/physics/forces.ts:116-117 | The heat added by one step lies in `[0, 0.05]`. |
| ForceKernel.Velocity | src/sim/physics/forces.ts:105-112 | With clamps, the new velocity lies in `[-1000, 1000]`. Without them, it is `v + (a - v*drag)*h`. |
| ForceKernel.Integrate | src/sim/physics/forces.ts:102-119 | One semi-implicit Euler step keeps `r`, `m`, `invM` and the colour, and advances the position by the new velocity times `h`. With clamps the velocity lies in `[-1000, 1000]`. Heat changes only in `'heat'` mode, to `heat*heatDecay + δ` with `δ` in `[0, 0.05]`. |
| ForceKernel.IntegrateUnclamped | src/sim/physics-forces.ts:151-157 | Without clamps the step is `v' = v + (a - v*drag)*h`. |
| ForceKernel.VelocityClampsInactive | src/sim/physics/forces.ts:105-112 | On one axis the clamps change nothing while the acceleration and the unclamped new velocity stay within their bounds. |
| ForceKernel.ClampsInactiveWhenSmall | src/sim/physics/forces.ts:105-114 | The clamped and unclamped steps agree while the acceleration and the new velocity stay within their bounds. |
| ForceKernel.VelocityUsesLimit | src/sim/physics/forces.ts:105-109 | With the clamps, any acceleration acts on the velocity as its value cut to `[-500, 500]`. |
| ForceKernel.ClampedVelocity | src/sim/physics/forces.ts:105-112 | The clamped update is the Euler update with the cut acceleration, itself cut to `[-1000, 1000]`. |
| ForceKernel.LimitTwice | src/sim/physics/forces.ts:111-112 | Cutting a value a second time changes nothing. |
| ForceKernel.IntegrateUsesLimit | src/sim/physics/forces.ts:105-106 | For every acceleration, on each axis separately, the clamped step equals the step taken with that axis cut to `[-500, 500]`. |
| ForceKernel.ClampedAccelSaturates | src/sim/physics/forces.ts:105-106 | Any acceleration of at least 500 on both axes acts as exactly 500. |
| ForceKernel.DragOnly | src/sim/physics-forces.ts:154-155 | With no acceleration and no clamps, each velocity component is scaled by `1 - drag*h`. |
| ForceKernel.ScaledTurbulence | src/sim/physics-forces.ts:49-120 | A turbulence term is the field value times the inverse mass. It is zero for mode `'none'` or an unknown mode, and zero when `invM` is 0. |
| FlatForces.WorkerForces | src/sim/physics/forces.ts:26-100 | While the pointer is off, its tool is `'none'`, or the particle is outside its radius, the acceleration is exactly gravity plus wind plus the turbulence term. |
| FlatForces.InlineTurbulence | src/sim/physics-forces.ts:49-120 | The inline turbulence is zero for an unknown mode, zero in mode `'wells'` without a wells list, and zero when `invM` is 0. |
| FlatForces.InlineForces | src/sim/physics-forces.ts:25-149 | With turbulence mode `'none'` and the pointer inactive, the result is exactly the gravity-plus-wind base. With the pointer off or out of reach, it is the base plus the inline turbulence. |
| FlatForces.StepAt | src/sim/physics/forces.ts:102-119 | The step keeps the `R`, `M` and `INV_M` slots' values, and advances the position by the new velocity times `h`. With clamps the velocity lies in `[-1000, 1000]`. The heat rule is the one of `Integrate`. |
| FlatForces.ApplyIntegration | src/sim/physics/forces.ts:102-119 | Particle `i`'s `X, Y, VX, VY, HEAT` slots are replaced by one integration step, and every other slot keeps its value. The same method with `clamps` off models src/sim/physics-forces.ts:151-161. |
| FlatForces.IntegrationSlots | src/sim/physics/forces.ts:102-119 | An integration step never writes the `R`, `M` or `INV_M` slots, or any slot of another particle. |
| FlatForces.ClampedStepSlots | src/sim/physics/forces.ts:111-114 | After the clamped step the `VX, VY` slots lie in `[-1000, 1000]`, and the position slots have advanced by the clamped velocity times `h`. |
| ContactKernel.Restitution | src/sim/physics/collisions.ts:14 | Outside `'inelastic'` mode the pass uses the physics restitution unchanged. A fully inelastic setting gives restitution 0. |
| ContactKernel.ContactNormal | src/sim/physics/collisions.ts:27-39 | The contact distance is always positive. At or above the threshold it is the centre distance, and the normal times it gives back `(dx, dy)`. Below the threshold the fixed policy gives `(1, 0)` with distance 1e-3. The normal has unit length for the fixed policy, and for the other two policies whenever their input vector is non-zero. |
| ContactKernel.OrZeroNormal | src/sim/physics-worker.ts:482-491 | With a positive distance the normal is `(dx, dy)/d`. For an exact coincidence the `|| eps` fallback gives the zero normal with distance `eps`. Otherwise the normal has unit length. |
| ContactKernel.ThresholdNormal | src/sim/physics/collisions.ts:32-39 | The distance is at least the threshold. Above it, the normal is the direction to the second centre. Below it, the fixed variant gives `(1, 0)` and the random variant a unit vector when its draws are not both at 0.5. |
| ContactKernel.RandomNormal | src/sim/main-loop-physics.ts:149-159 | Two draws in `[0, 1)` mapped to `[-1, 1)` and normalised give a unit normal unless both map to 0. The distance is the threshold. |
| ContactKernel.Separate | src/sim/physics/collisions.ts:57-61 | The positional correction moves the two centres by equal and opposite amounts: the sum of positions is kept, nothing but position changes, the gap grows by twice the correction along the normal, and mass-weighted momentum is unchanged. |
| ContactKernel.SoftVelocities | src/sim/physics/collisions.ts:48-55 | The soft damping step changes only velocities and keeps momentum on both axes. With a unit normal and a non-zero mass sum, the normal speed becomes `vn * (1 - rest) / 2`. |
| ContactKernel.SoftMomentum | src/sim/physics/collisions.ts:52-55 | Moving the two velocities by `k` times the other particle's mass, in opposite directions, keeps the momentum. |
| ContactKernel.SoftNormalSpeed | src/sim/physics/collisions.ts:48-55 | The soft step's normal speed after the update is `vn * (1 - rest) / 2`, for a unit normal and `inv = 1/(mp + mq)`. |
| ContactKernel.NormalImpulse | src/sim/physics/collisions.ts:65-67 | With the clamp, the normal impulse lies in `[-100, 100]`. Without it, and with `invM = 1/m` on both positive masses, the impulse times the inverse-mass sum is `-(1 + rest) * vn`. |
| ContactKernel.InverseOfMass | src/sim/physics/collisions.ts:66 | For a positive mass whose stored inverse is `1/m`, the inverse is positive and equals the computed `1/m`. |
| ContactKernel.Tangent | src/sim/physics/collisions.ts:74-76 | With a unit normal and `vn` the relative velocity along it, the tangent direction is orthogonal to the normal. |
| ContactKernel.OrthogonalTangent | src/sim/physics/collisions.ts:74-76 | The relative velocity minus its normal part, divided by any non-zero length, is orthogonal to a unit normal. |
| ContactKernel.HeatUp | src/sim/physics/collisions.ts:83-85 | The heat after a contact lies in `[0, 1.2]`, and equals `heat + loss` whenever that sum is already in range. |
| ContactKernel.Kick | src/sim/physics/collisions.ts:68-72 | An impulse applied through the inverse masses changes only velocities, and keeps the momentum whenever each inverse mass is `1/m`. |
| ContactKernel.KickMomentum | src/sim/physics/collisions.ts:68-72 | On one axis, an impulse subtracted through one inverse mass and added through the other keeps `mp*vp + mq*vq`. |
| ContactKernel.KickEffect | src/sim/physics/collisions.ts:68-81 | An impulse `k` along `u` changes the relative speed along any direction `w` by `k * (invMp + invMq) * (u . w)`. |
| ContactKernel.TwoKicks | src/sim/physics/collisions.ts:68-81 | The normal impulse followed by the friction impulse changes only velocities, and keeps the momentum when each inverse mass is `1/m`. |
| ContactKernel.TwoKicksNormalSpeed | src/sim/physics/collisions.ts:68-81 | With a unit normal and an orthogonal tangent, the friction impulse leaves the normal speed alone: it changes by `jimp * (invMp + invMq)` only. |
| ContactKernel.Heat | src/sim/physics/collisions.ts:82-86 | The heat step changes only heat. Outside heat colour mode it changes nothing; in heat mode both heats end in `[0, 1.2]`. |
| ContactKernel.Restitutes | src/sim/physics/collisions.ts:64-72 | When the impulse times the inverse-mass sum is `-(1 + rest) * vn`, the new normal speed is `-rest * vn`. |
| ContactKernel.Impulse | src/sim/physics/collisions.ts:62-87 | A separating or resting pair (`vn >= 0`) is left unchanged; an approaching pair goes through the impulse step. Only velocities and heat change, momentum is kept when each inverse mass is `1/m`, heat is kept outside heat mode, and heats in `[0, 1.2]` stay there. |
| ContactKernel.Approach | src/sim/physics/collisions.ts:64-87 | The impulse and heat step of an approaching pair: only velocities and heat change, momentum is kept when each inverse mass is `1/m`, heat is untouched outside heat mode and lies in `[0, 1.2]` within it. |
| ContactKernel.HeatKeepsMotion | src/sim/physics/collisions.ts:82-86 | A step that changes only heat keeps momentum and the relative speed along any direction. |
| ContactKernel.Kicked | src/sim/physics/collisions.ts:65-81 | The normal and friction impulses change only velocities, and keep momentum when each inverse mass is `1/m`. |
| ContactKernel.KickedNormalSpeed | src/sim/physics/collisions.ts:65-81 | With a unit normal, the normal speed after both impulses is `vn + jimp * (invMp + invMq)`, whatever the friction. |
| ContactKernel.KickedRestitutes | src/sim/physics/collisions.ts:64-81 | With positive masses, `invM = 1/m`, a unit normal and no impulse clamp, the new normal speed is `-rest` times the old one: the restitution law. |
| ContactKernel.ApproachRestitutes | src/sim/physics/collisions.ts:64-87 | The restitution law `vn' = -rest * vn` also holds after the heat step. |
| ContactKernel.Resolve | src/sim/physics/collisions.ts:40-88 | One overlapping pair's resolution keeps every radius, mass, inverse mass and colour and the sum of positions. Momentum is kept in soft mode, or when each inverse mass is `1/m`. Heat is unchanged in soft mode or outside heat mode. Heats in `[0, 1.2]` stay there. |
| ContactKernel.SoftResolve | src/sim/physics/collisions.ts:41-55 | The soft mode keeps the per-particle constants, the sum of positions, the momentum and both heats. |
| ContactKernel.HardResolve | src/sim/physics/collisions.ts:56-87 | The impulse modes move the centres apart by the whole overlap along the normal, split equally. They keep the per-particle constants and the sum of positions, momentum when each inverse mass is `1/m`, heat outside heat mode, and heat within `[0, 1.2]`. |
| ContactKernel.CorrectionSeparates | src/sim/physics/collisions.ts:57-61 | In the impulse modes, with a unit normal, the gap along the normal grows by exactly the overlap `r1 + r2 - d`. |
| ContactKernel.ShiftAlongUnit | src/sim/physics/collisions.ts:58-61 | Shifting a vector by `o/2` times a unit normal, twice, adds `o` to its component along that normal. |
| FlatCollisions.ResolvePair | src/sim/physics/collisions.ts:40-88 | Resolving a pair keeps the buffer's length. `ResolvePairRec` states the contents. |
| FlatCollisions.ResolvePairRec | src/sim/physics/collisions.ts:40-88 | After a pair is resolved, particles `i` and `j` hold exactly the resolved records, and every other particle is unchanged. |
| FlatCollisions.Scan | src/sim/physics/collisions.ts:19-92 | The scan of one particle keeps the buffer length. It resolves at most as many contacts as it has neighbours, and no more than `cap + 1` when it starts at or under the cap. A neighbour list holding only indices `<= i` changes nothing. |
| FlatCollisions.GridNeighborsAgree | src/sim/physics/grid.ts:14-27 | The grid's own neighbour function gives the grid's neighbour list for every particle of every buffer. |
| FlatCollisions.ScanFn | src/sim/physics/collisions.ts:18-92 | Scanning a particle against its neighbour list never changes the buffer's length. |
| FlatCollisions.ScanLengths | src/sim/physics/collisions.ts:18-92 | Every particle's scan keeps the buffer's length. |
| FlatCollisions.Sweep | src/sim/physics/collisions.ts:16 | Taking particles `0 .. k-1` in turn keeps the buffer's length. |
| FlatCollisions.Collide | src/sim/physics/collisions.ts:16-93 | The whole pass keeps the buffer's length. `CollisionLaws.CollideKeeps` states what it conserves. |
| FlatCollisions.CollideStep | src/sim/physics/collisions.ts:16-18 | The pass over `k + 1` particles is the pass over `k` particles, then particle `k` scanned against the neighbour list it has in the buffer as it then is. |
| FlatCollisions.ScanStep | src/sim/physics/collisions.ts:20-90 | One neighbour at a time: a neighbour that is earlier or does not overlap is skipped; an overlapping one is resolved, and the scan stops when the count passes the cap. |
| FlatCollisions.ResolveInPlace | src/sim/physics/collisions.ts:40-88 | The in-place writes leave the buffer equal to the resolved-pair function of the old buffer. |
| FlatCollisions.ScanNeighbors | src/sim/physics/collisions.ts:19-92 | The inner loop, with its counter and early `break`, leaves the buffer equal to the scan function of the old buffer. |
| FlatCollisions.ScanParticle | src/sim/physics/collisions.ts:17-92 | One outer turn: particle `i`'s neighbours taken from the grid, then scanned. |
| FlatCollisions.HandleCollisions | src/sim/physics/collisions.ts:5-94 | The buffer after the loop is the whole pass over the first `numParticles` particles, each scanned against the grid's neighbour list at the moment its turn comes. The same method with the worker's parameters models src/sim/physics-worker.ts:469-537. |
| FlatCollisions.CollideNext | src/sim/physics/collisions.ts:16-93 | One turn of the outer loop moves the buffer from the state after `i` particles to the state after `i + 1`. |
| CollisionLaws.All | src/sim/physics/collisions.ts:16 | The number of whole particles in a buffer: every particle the buffer holds has a smaller index. |
| CollisionLaws.TotalPair | src/sim/physics/collisions.ts:40-88 | When only particles `i` and `j` change and `f` keeps its sum over them, the total of `f` over any prefix is unchanged. |
| CollisionLaws.PairTotal | src/sim/physics/collisions.ts:40-88 | The same, for the total over the whole buffer. |
| CollisionLaws.ResolvePairShape | src/sim/physics/collisions.ts:40-88 | A resolved pair changes only particles `i` and `j`, which take the resolved records. |
| CollisionLaws.PairBodies | src/sim/physics/collisions.ts:40-88 | A pair step that keeps both radii, masses, inverse masses and colours keeps them for the whole buffer. If it keeps heat in `[0, 1.2]`, every heat stays there. |
| CollisionLaws.ResolvePairKeeps | src/sim/physics/collisions.ts:40-88 | One resolved pair keeps everything a pass keeps. That is the per-particle constants and the total of each position coordinate. It also keeps total momentum, in soft mode or when every inverse mass is `1/m`, and keeps heat within `[0, 1.2]`. |
| CollisionLaws.PairMomentum | src/sim/physics/collisions.ts:68-81 | When a pair step keeps the pair's momentum, the buffer's total momentum is kept. |
| CollisionLaws.SameBodiesTrans | src/sim/physics/collisions.ts:16-93 | Keeping the per-particle constants composes over steps. |
| CollisionLaws.MassConsistentKept | src/sim/physics/collisions.ts:16-93 | A step that keeps masses and inverse masses keeps `invM = 1/m`. |
| CollisionLaws.KeepsTrans | src/sim/physics/collisions.ts:16-93 | What a pass keeps is kept by a sequence of steps. |
| CollisionLaws.KeepsRefl | src/sim/physics/collisions.ts:16-93 | A buffer keeps everything a pass keeps with respect to itself. |
| CollisionLaws.ScanPreserves | src/sim/physics/collisions.ts:19-92 | Any buffer property kept by every resolved pair is kept by a particle's scan. |
| CollisionLaws.CollidePreserves | src/sim/physics/collisions.ts:16-93 | Any buffer property kept by every resolved pair is kept by the whole pass. |
| CollisionLaws.CollideZero | src/sim/physics/collisions.ts:16 | The pass over no particles leaves the buffer unchanged. |
| CollisionLaws.CollideStepPreserves | src/sim/physics/collisions.ts:16-93 | A property kept by every resolved pair survives one more particle's turn. |
| CollisionLaws.CollideKeeps | src/sim/physics/collisions.ts:16-93 | The whole pass keeps every radius, mass, inverse mass and colour, and the total of each position coordinate. It keeps total momentum in soft mode or when every inverse mass is `1/m`, and keeps every heat within `[0, 1.2]` when it starts there. |
| CollisionLaws.ResolvePairKeepsHeat | src/sim/physics/collisions.ts:82-86 | Outside heat colour mode a resolved pair leaves every heat unchanged. |
| CollisionLaws.CollideKeepsHeat | src/sim/physics/collisions.ts:82-86 | Outside heat colour mode the whole pass leaves every heat unchanged. |
| WallKernel.WallX | src/sim/physics-boundaries.ts:14-28 | Only position and velocity change, and `y` is kept. With `lo <= hi`, the new `x` lies in `[lo, hi]`. A particle already inside is unchanged. A particle beyond a wall and moving outward has its `vx` reflected and scaled by `e`, and its `vy` scaled by `1 - wf`. The velocity changes only in those two cases. |
| WallKernel.WallY | src/sim/physics-boundaries.ts:29-43 | The same for the `y` walls, with the roles of `vx` and `vy` swapped. |
| WallKernel.WallXTurnsInward | src/sim/physics-boundaries.ts:14-28 | With a non-negative restitution, a particle beyond the low wall ends with `vx >= 0`, and one beyond the high wall ends with `vx <= 0`. |
| WallKernel.ScreenBounce | src/sim/physics-boundaries.ts:12-43 | Only position and velocity change. When the canvas is at least one diameter across, the centre ends in `[r, BW - r] x [r, BH - r]`. A particle already there is unchanged. |
| WallKernel.ScreenWrap | src/sim/physics-boundaries.ts:44-48 | Only the position changes and it ends in `[-r, BW + r] x [-r, BH + r]`. A particle past the low edge reappears at `BW + r` (or `BH + r`), and one past the high edge at `-r`. A particle inside is unchanged. |
| WallKernel.Teleport | src/sim/physics-boundaries.ts:104-109 | Any other mode: only the position changes, and it ends in `[-BW, 2BW] x [-BH, 2BH]`. A particle already there is unchanged. |
| WallKernel.Square | src/sim/physics-boundaries.ts:68-103 | Only position and velocity change. When the half-size is at least the radius, the centre ends inside the square shrunk by the radius. |
| WallKernel.SquareStopsAtWall | src/sim/physics-boundaries.ts:74-103 | With container restitution 0, a particle that hits a square wall while moving outward ends with zero normal velocity. |
| WallKernel.Reflect | src/sim/physics-boundaries.ts:60-62 | Against a unit normal, the normal speed becomes `-e` times what it was, and the tangential speed is kept. |
| WallKernel.Damp | src/sim/physics-boundaries.ts:63-66 | Against a unit normal, the normal speed is kept, and the tangential speed is scaled by `1 - wf`. |
| WallKernel.ReflectDamp | src/sim/physics-boundaries.ts:60-66 | Both steps: the normal speed is scaled by `-e` and the tangential speed by `1 - wf`. |
| WallKernel.Rim | src/sim/physics-boundaries.ts:56-67 | Only position and velocity change. When `d` is the length of the offset, the particle ends exactly `allow` from the centre, with its normal speed scaled by `-e` and its tangential speed by `1 - wf`. |
| WallKernel.CircleDist | src/sim/physics-boundaries.ts:54 | For a non-zero offset the distance is its positive length. For a zero offset it is the fallback `eps`. |
| WallKernel.Circle | src/sim/physics-boundaries.ts:49-67 | Only position and velocity change. A particle within `max(2, R - r)` of the centre is unchanged, including one at the centre itself. A particle beyond it is put on the rim and its velocity is reflected and damped. |
| WallKernel.UnitDirection | src/sim/physics-boundaries.ts:57 | An offset divided by its own length has unit length. |
| WallKernel.ScaledNorm | src/sim/physics-boundaries.ts:58-59 | A unit vector times `k` has squared length `k^2`. |
| WallKernel.ModeOf | src/sim/physics-boundaries.ts:12-104 | The four known mode strings are told apart exactly: each has its own branch, and every other string takes the last branch. |
| WallKernel.Boundary | src/sim/physics-boundaries.ts:10-110 | Only position and velocity change. Each mode selects its policy, and the container is scaled to the canvas: centre `(cx*BW, cy*BH)`, and radius or half-size times `min(BW, BH)/2`. |
| FlatBoundaries.PassWalls | src/sim/physics-boundaries.ts:5-8 | The pass takes the stored mode string unmapped, the container restitution 0, and the physics restitution and wall friction. |
| FlatBoundaries.HandleBoundaries | src/sim/physics-boundaries.ts:4-111 | After the loop, each of the first `numParticles` particles has its position and velocity slots replaced by the boundary policy's result, and every other slot is unchanged. |
| PhysicsUtils.WithMotion | src/sim/physics-boundaries.ts:14-66 | Writing a particle's motion keeps the buffer's length. `WithMotionRec` states the contents. |
| PhysicsUtils.WithMotionHeat | src/sim/physics/collisions.ts:44-86 | Writing motion and heat keeps the buffer's length. `WithMotionHeatRec` states the contents. |
| PhysicsUtils.WithMotionRec | src/sim/physics-boundaries.ts:14-66 | After the motion of particle `i` is written, `i` has the new position and velocity and its other fields, and every other particle is unchanged. |
| PhysicsUtils.WithMotionHeatRec | src/sim/physics/collisions.ts:44-86 | After the motion and heat of particle `i` are written, `i` has the new position, velocity and heat, and every other particle is unchanged. |
| PhysicsUtils.StoreMotion | src/sim/physics-boundaries.ts:14-66 | The four slot writes leave the buffer equal to the motion-write function of the old one. |
| PhysicsUtils.StoreMotionHeat | src/sim/physics/collisions.ts:44-86 | The five slot writes leave the buffer equal to the motion-and-heat-write function of the old one. |
| BufferPass.MapMotion | src/sim/physics-boundaries.ts:10-110 | A per-particle motion pass over the first `n` particles keeps the buffer's length. |
| BufferPass.MapMotionHeat | src/sim/physics-forces.ts:25-162 | A per-particle motion-and-heat pass over the first `n` particles keeps the buffer's length. |
| BufferPass.MapMotionRec | src/sim/physics-boundaries.ts:10-110 | After the motion pass, each particle `k < n` has the position and velocity `f` gives it from its old record, and keeps everything else. |
| BufferPass.MapMotionHeatRec | src/sim/physics-forces.ts:25-162 | After the motion-and-heat pass, each particle `k < n` has the position, velocity and heat `f` gives it, and keeps everything else. |
| BufferPass.MapMotionTail | src/sim/physics-boundaries.ts:10 | Particles at index `n` or later are untouched by the motion pass. |
| BufferPass.MapMotionHeatTail | src/sim/physics-forces.ts:25 | Particles at index `n` or later are untouched by the motion-and-heat pass. |
| BufferPass.MapMotionStep | src/sim/physics-boundaries.ts:10-110 | Writing `f` of particle `i`, into the pass over `i` particles, gives the pass over `i + 1` particles. |
| BufferPass.MapMotionHeatStep | src/sim/physics-forces.ts:25-162 | The same for the motion-and-heat pass. |
| BufferPass.ApplyMotion | src/sim/physics-boundaries.ts:10-110 | The loop over `i < n` leaves the buffer equal to the motion pass of the old buffer. |
| BufferPass.ApplyMotionHeat | src/sim/physics-forces.ts:25-162 | The loop over `i < n` leaves the buffer equal to the motion-and-heat pass of the old buffer. |
| BufferPass.Load | src/sim/physics-boundaries.ts:11 | Reading the eight slots of particle `i` gives its record. |
| PassSettings.HelperCollisions | src/sim/physics/collisions.ts:5-94 | The helper module's pass is the flat-buffer pass with the fixed normal `(1,0)` below 1e-3, the impulse clamp, the friction fallback 1e-4 and the cap `collisionCap \| 0`. |
| PassSettings.HelperCollisionsKeep | src/sim/physics/collisions.ts:5-94 | The helper's pass keeps the per-particle constants and the position totals. It keeps total momentum in soft mode or when every `invM = 1/m`, and keeps heat within `[0, 1.2]`. |
| RecordCollisions.ResolvePair | src/sim/main-loop-physics.ts:146-207 | Resolving a pair keeps the number of records. The draw counter advances by two exactly when the random normal is used, which happens below the threshold. |
| RecordCollisions.Scan | src/sim/main-loop-physics.ts:141-211 | A particle's scan keeps the number of records. It resolves at most one contact per neighbour, and no more than `cap + 1` from a start at or under the cap. Only the random policy takes draws. A list of indices `<= i` changes nothing. |
| RecordCollisions.Collide | src/sim/main-loop-physics.ts:138-212 | The whole pass keeps the number of records and never moves the draw counter back. Without the random policy it takes no draw. |
| RecordCollisions.GridNeighborsAgree | src/sim/grid.ts:14-27 | The state map's own neighbour function gives the map's neighbour list for every record of every state. |
| RecordCollisions.ScanStep | src/sim/main-loop-physics.ts:142-210 | One neighbour at a time: a neighbour that is earlier or does not overlap is skipped; an overlapping one is resolved, and the scan stops when the count passes the cap. |
| RecordCollisions.ResolveInPlace | src/sim/main-loop-physics.ts:146-207 | The in-place updates of the two records, and the `Math.random()` calls, leave the records and the draw counter as the pure resolved-pair function gives them. |
| RecordCollisions.ScanNeighbors | src/sim/main-loop-physics.ts:141-211 | The inner loop, with its counter and early `break`, leaves the records and draw counter as the scan function gives them. |
| RecordCollisions.CollideNext | src/sim/main-loop-physics.ts:138-212 | One outer turn moves the records and the draw counter from the pass over `i` records to the pass over `i + 1`. |
| RecordCollisions.HandleCollisions | src/sim/main-loop-physics.ts:134-213 | The records and the draw counter after the loop are the whole pass over the old records, with each record scanned against the state map's neighbours at its turn. The same method, with the clamped copy's parameters, models src/sim/main/loop-physics.ts:75-152. |
| RecordLaws.TotalPair | src/sim/main-loop-physics.ts:146-207 | When only records `i` and `j` change and `f` keeps its sum over them, the total of `f` over any prefix is unchanged. |
| RecordLaws.PairTotal | src/sim/main-loop-physics.ts:146-207 | The same, over all records. |
| RecordLaws.ResolvePairKeeps | src/sim/main-loop-physics.ts:146-207 | One resolved pair keeps every radius, mass, inverse mass and colour, and the total of each position coordinate. It keeps total momentum in soft mode or when every `invM = 1/m`, and keeps heat within `[0, 1.2]`. |
| RecordLaws.SameBodiesTrans | src/sim/main-loop-physics.ts:138-212 | Keeping the per-record constants composes over steps. |
| RecordLaws.MassConsistentKept | src/sim/main-loop-physics.ts:138-212 | A step that keeps masses and inverse masses keeps `invM = 1/m`. |
| RecordLaws.KeepsTrans | src/sim/main-loop-physics.ts:138-212 | What a pass keeps is kept over a sequence of steps. |
| RecordLaws.ScanPreserves | src/sim/main-loop-physics.ts:141-211 | Any property of the records kept by every resolved pair, whatever the draws, is kept by a record's scan. |
| RecordLaws.CollidePreserves | src/sim/main-loop-physics.ts:138-212 | Any property of the records kept by every resolved pair is kept by the whole pass. |
| RecordLaws.CollideKeeps | src/sim/main-loop-physics.ts:138-212 | The whole pass keeps every radius, mass, inverse mass and colour, and the total of each position coordinate. It keeps total momentum in soft mode or when every `invM = 1/m`, and keeps every heat within `[0, 1.2]`. |
| RecordLaws.ScanDrawFree | src/sim/main/loop-physics.ts:90-98 | Without the random policy, a scan's result does not depend on the random stream. |
| RecordLaws.CollideDrawFree | src/sim/main/loop-physics.ts:90-98 | Without the random policy, the whole pass does not depend on the random stream. |
| RecordSteps.RecordWalls | src/sim/main-loop-physics.ts:215-222 | The record copies map the boundary mode (`'bounce'` to `'screen-bounce'`, `'wrap'` to `'screen-wrap'`) and use the restitution for the containers as well. |
| RecordSteps.BoundedMovesOnly | src/sim/main-loop-physics.ts:215-322 | The boundary pass keeps the number of records and changes only position and velocity. |
| RecordSteps.BounceContains | src/sim/main-loop-physics.ts:223-254 | In screen-bounce mode, each record's centre ends within `[r, BW - r]` (and `[r, BH - r]`) whenever the canvas is at least one diameter across. |
| RecordSteps.SquareReflects | src/sim/main/loop-physics.ts:218-253 | In the square container, a record beyond the left wall is put back on it. If it was moving outward and its height was inside, its normal velocity is reflected and scaled by the restitution, not zeroed, and its tangential velocity is scaled by `1 - wallFriction`. |
| MainLoopPhysics.WellsFor | src/sim/main-loop-physics.ts:16 | The wells are computed exactly when the turbulence mode is `'wells'`. |
| MainLoopPhysics.SimulatePhysicsStep | src/sim/main-loop-physics.ts:7-132 | Every record is replaced by its own step, computed from the record itself, the settings, the pointer, the gravity source and the wells of this time, which exist only in `'wells'` mode. |
| MainLoopPhysics.AdvanceIsEuler | src/sim/main-loop-physics.ts:122-130 | The step is semi-implicit Euler with no clamp: `v' = v + (a - v*drag)*h`, then `x' = x + v'*h`. Radius, mass, inverse mass and colour are kept, and heat changes only in `'heat'` colour mode. |
| MainLoopPhysics.WellsOnlyInWellsMode | src/sim/main-loop-physics.ts:16 | Outside `'wells'` mode the step does not depend on the wells generator. |
| MainLoopPhysics.GravityOnlyStep | src/sim/main-loop-physics.ts:20-126 | With turbulence `'none'` and the pointer off or out of reach, the step accelerates by gravity and wind alone. |
| MainLoopPhysics.MainPass | src/sim/main-loop-physics.ts:134-213 | This copy's collision pass: a random normal below 1e-4, no impulse clamp, and the cap `collisionCap \| 0`. |
| MainLoopPhysics.HandleCollisions | src/sim/main-loop-physics.ts:134-213 | The records and the random-draw counter end as the record pass with this copy's parameters gives them. |
| MainLoopPhysics.MainCollisionsKeep | src/sim/main-loop-physics.ts:134-213 | The pass keeps every radius, mass, inverse mass and colour, and the position totals. It keeps total momentum in soft mode or when every `invM = 1/m`, and keeps heat within `[0, 1.2]`, whatever the random draws. |
| MainLoopPhysics.CoincidentUsesRandomNormal | src/sim/main-loop-physics.ts:151-156 | Below a distance of 1e-4, the pass draws two numbers. The contact distance is 1e-4, and the normal has unit length unless both draws map to 0. |
| MainLoopPhysics.MainWalls | src/sim/main-loop-physics.ts:215-222 | This copy uses the restitution for the containers too. |
| MainLoopPhysics.HandleBoundaries | src/sim/main-loop-physics.ts:215-322 | Every record is replaced by the mapped mode's boundary policy applied to it. |
| ClampedLoopPhysics.SimulatePhysicsStep | src/sim/main/loop-physics.ts:7-73 | Every record is replaced by its own clamped step, computed from the record, the settings, the pointer, the gravity source and the turbulence at this time. |
| ClampedLoopPhysics.AdvanceClamps | src/sim/main/loop-physics.ts:57-67 | After the step each velocity component lies in `[-1000, 1000]`, and the position has advanced by the new velocity times `h`. The per-particle constants are kept. Whatever the forces, the step equals the one taken with the acceleration cut to `[-500, 500]` per axis. |
| ClampedLoopPhysics.PointerOnlyInReach | src/sim/main/loop-physics.ts:31-55 | The pointer adds nothing while it is off, while its tool is `'none'`, or outside its radius. |
| ClampedLoopPhysics.ClampedPass | src/sim/main/loop-physics.ts:75-152 | This copy's collision pass: the fixed normal `(1,0)` below 1e-3, the impulse clamped to `[-100, 100]`, and the cap `collisionCap \| 0`. |
| ClampedLoopPhysics.HandleCollisions | src/sim/main/loop-physics.ts:75-152 | The records end as this copy's pass gives them, and no random number is drawn. |
| ClampedLoopPhysics.ClampedCollisionsKeep | src/sim/main/loop-physics.ts:75-152 | The pass keeps every radius, mass, inverse mass and colour, the position totals, momentum when every `invM = 1/m`, and heat within `[0, 1.2]`. Its result does not depend on the random stream. |
| ClampedLoopPhysics.CoincidentUsesFixedNormal | src/sim/main/loop-physics.ts:90-98 | Below a distance of 1e-3 the normal is `(1, 0)` and the distance 1e-3. |
| ClampedLoopPhysics.ClampedWalls | src/sim/main/loop-physics.ts:154-161 | This copy uses the restitution for the containers too. |
| ClampedLoopPhysics.HandleBoundaries | src/sim/main/loop-physics.ts:154-261 | Every record is replaced by the mapped mode's boundary policy applied to it. |
| SimState.MapPrefix | src/sim/main-loop-physics.ts:18-19 | After `n` turns of a loop that rewrites each record from itself, the first `n` records are rewritten and the rest are untouched. |
| SimState.MapAll | src/sim/main-loop-physics.ts:18-19 | After the whole loop, every record `k` is `f` of the old record `k`, and the length is kept. |
| SimState.World.constructor | src/sim/state.ts:26-39 | The initial state has no particles and an empty grid map with cell size 16. Heat decay is 0.97. It is running and not single-stepping. Gravity and pointer gravity point straight down. The smoothed rate is 60 fps and the substep count comes from the settings. The frame counter is 0, the FPS window is empty and the pointer is idle at the origin. |
| SimState.World.MapParticles | src/sim/main-loop-physics.ts:18-131 | The in-place loop over `State.particles` leaves each record equal to `f` of its old value. |
| Types.RandomSource.constructor | src/sim/main-loop-physics.ts:152-153 | A fresh source starts at the first draw of its stream. |
| Types.RandomSource.Random | src/sim/main-loop-physics.ts:152-153 | Each call returns the next draw, which lies in `[0, 1)`, and advances the counter by one. |
| WorkerStep.SubstepCount | src/sim/physics-worker.ts:220-221 | There is always at least one substep. A count between 1 and `2^31` is truncated to an integer. A count in `(-1, 2)` gives one substep. |
| WorkerStep.Advance | src/sim/physics-worker.ts:254-466 | One particle through one substep keeps its radius, mass, inverse mass and colour. Outside `'heat'` colour mode it also keeps its heat. |
| WorkerStep.AdvanceFn | src/sim/physics-worker.ts:254-466 | Outside `'heat'` colour mode, the per-particle substep never changes heat. |
| WorkerStep.WellsFor | src/sim/physics-worker.ts:235-245 | The step has wells exactly in `'wells'` mode. When the wells move, or none are cached, it computes `wellsCount` of them afresh. |
| WorkerStep.Substep | src/sim/physics-worker.ts:253-538 | One substep, the motion pass and then the gated collision pass, keeps the buffer length. `SubstepParts` states its composition. |
| WorkerStep.SubstepFn | src/sim/physics-worker.ts:253-538 | The substep applied to a whole buffer keeps its length. |
| WorkerStep.Repeat | src/sim/physics-worker.ts:253 | Any number of substeps keeps the buffer length. |
| WorkerStep.StepSpec | src/sim/physics-worker.ts:194-557 | The step returns exactly as many particles as the message brought. |
| WorkerStep.StepSpecIs | src/sim/physics-worker.ts:198-251 | Given the values the handler computes on the way, the step's result is `StepSpec`. Those values are the packed buffer, its largest radius, the substep count, the collision gate, the grid's neighbour lists and the per-particle step with `h = dt/sub`. |
| WorkerStep.MapMotionHeatBodies | src/sim/physics-worker.ts:254-466 | The motion pass keeps every radius, mass and inverse mass. |
| WorkerStep.MapMotionHeatKeepsHeat | src/sim/physics-worker.ts:254-466 | A motion pass whose step keeps heat keeps every heat. |
| WorkerStep.SubstepParts | src/sim/physics-worker.ts:253-538 | A substep is the motion pass over all particles, followed by the collision pass only when collisions are on. |
| WorkerStep.SubstepBodies | src/sim/physics-worker.ts:253-538 | A substep keeps every radius, mass and inverse mass. |
| WorkerStep.SubstepHeat | src/sim/physics-worker.ts:253-538 | Outside heat mode, with a step that keeps heat, a substep keeps every heat. |
| WorkerStep.SubstepFnBodies | src/sim/physics-worker.ts:253-538 | The same, for the substep over any buffer. |
| WorkerStep.SubstepFnHeat | src/sim/physics-worker.ts:253-538 | The same for heat, over any buffer. |
| WorkerStep.RepeatNext | src/sim/physics-worker.ts:253 | One more substep after `k` gives `k + 1` substeps. |
| WorkerStep.RepeatBodies | src/sim/physics-worker.ts:253-538 | Any number of substeps that each keep the per-particle constants keeps them. |
| WorkerStep.RepeatHeat | src/sim/physics-worker.ts:253-538 | Any number of substeps that each keep heat keeps it. |
| WorkerStep.UnpackBodies | src/sim/physics-worker.ts:541-555 | Reading back a buffer that kept the constants gives particles with the radius, mass and inverse mass they were sent with, and colour `''`. |
| WorkerStep.UnpackHeat | src/sim/physics-worker.ts:541-555 | Reading back a buffer that kept heat gives each particle the heat it was sent with. |
| WorkerStep.StepKeepsBodies | src/sim/physics-worker.ts:194-557 | Every returned particle has colour `''` and the radius, mass and inverse mass it was sent with. |
| WorkerStep.StepKeepsHeat | src/sim/physics-worker.ts:194-557 | Outside `'heat'` colour mode, every particle comes back with the heat it was sent with. |
| WorkerStep.CachedWellsStay | src/sim/physics-worker.ts:236-244 | Once a step in `'wells'` mode with standing wells has filled the cache, every later such step uses the same wells, whatever its time, canvas size, seed or count. |
| WorkerStep.Worker.constructor | src/sim/physics-worker.ts:194 | A fresh worker has no cached wells and an empty grid. |
| WorkerStep.Worker.Step | src/sim/physics-worker.ts:194-557 | The handler returns `StepSpec` for the wells the cache rule picks, and leaves the cache as that rule says. |
| WorkerStep.Worker.Simulate | src/sim/physics-worker.ts:198-557 | Packing, the largest radius, the substep count, the gated grid build, the substep loop and the read-back compute `StepSpec`. |
| WorkerStep.Worker.SelectWells | src/sim/physics-worker.ts:235-245 | With no wells outside `'wells'` mode, the cached wells when they stand still and exist, and fresh wells otherwise. Fresh wells are cached when they stand still. |
| WorkerStep.Worker.PrepareGrid | src/sim/physics-worker.ts:251 | When collisions are on, the grid is built over the buffer, and its neighbour lists are the ones the step's specification uses. |
| WorkerStep.Worker.RunSubsteps | src/sim/physics-worker.ts:253-539 | The substep loop leaves the buffer equal to `sub` applications of the substep function. |
| WorkerStep.Worker.SubstepInPlace | src/sim/physics-worker.ts:254-538 | One substep in place: every particle advanced, then, when on, the collision pass. |
| Particles.AreaSign | src/sim/particles.ts:9-10 | `pi*r*r*0.02` is never negative, and is positive for a non-zero radius. |
| Particles.MassPositive | src/sim/particles.ts:6-14 | Mode `'byArea'` gives a positive mass for a non-zero radius. `'inverse'` gives a mass in `(0, 10]`. `'random'` gives one in `[min, max)` when `min < max`. An unknown mode gives 1. |
| Particles.FreshParticle | src/sim/particles.ts:38-43 | A new particle has heat 0 and `invM = 1/m` for a non-zero mass. Its radius lies in `[radiusMin, radiusMin + radiusRange]` and its velocity components in `[-40, 40)`. It sits at the spawn position and has the solid colour. |
| Particles.KeptParticle | src/sim/particles.ts:49-54 | A rebuilt particle keeps the fresh radius, mass, inverse mass and colour. When positions are kept and an old particle `i` exists, it takes that particle's velocity and 0.8 of its heat, and its position clamped into the canvas shrunk by its radius. Otherwise it is the fresh particle. |
| Particles.TargetBounds | src/sim/particles.ts:45 | The target count is `clamp(count, 0, maxParticles)` truncated. It lies in `[0, maxParticles]`, and is the integer part of the count when the count is in range. |
| Particles.CellForBounds | src/sim/particles.ts:57 | The cell size is at least 8, and is `radiusMax*2` truncated when that is at least 8. |
| Particles.RebuildParticles | src/sim/particles.ts:44-58 | Afterwards there are exactly `target` particles, particle `i` being the rebuilt particle `i` from the old list and the `i`-th spawn draws. The cell size is reset from `radiusMax`, and the state invariant is kept. |
| Particles.UniformAll | src/sim/particles.ts:62-66 | Resizing every record keeps the number of records. |
| Particles.UniformProps | src/sim/particles.ts:61-66 | A resized record has radius `radiusMax` and `invM = 1/m` for a non-zero mass. Its position is clamped into the canvas shrunk by the radius. Velocity, heat and colour are kept. |
| Particles.ApplyUniformRadius | src/sim/particles.ts:59-68 | Without `uniformSize`, nothing changes. With it, every record is resized in place and the cell size is reset from `radiusMax`. The state invariant is kept. |
| Frame.InstantFps | src/sim/main-loop-performance.ts:6 | The frame's rate `1 / max(1e-6, dtRaw)` is positive and at most 1,000,000, whatever the frame time. |
| Frame.WindowKeepsNewest | src/sim/main-loop-performance.ts:9-10 | From a window of at most 30 samples, the new window holds at most 30 and ends with the new sample. It is the newest samples of the old window followed by the new one. |
| Frame.UpdatePerformanceMetrics | src/sim/main-loop-performance.ts:5-11 | The smoothed rate moves a tenth of the way to this frame's rate, and the sample joins the bounded window. |
| Frame.SmoothBetween | src/sim/main-loop-performance.ts:7 | The smoothed rate lies between its old value and the new sample. |
| Frame.SumBounds | src/sim/main-loop-performance.ts:15 | The sum of samples in `[lo, hi]` lies between `n*lo` and `n*hi`. |
| Frame.AvgBounds | src/sim/main-loop-performance.ts:15 | The average of an empty window is 0. The average of a non-empty window of samples in `[lo, hi]` lies in `[lo, hi]`. |
| Frame.DivideBounds | src/sim/main-loop-performance.ts:15 | Dividing a value in `[n*lo, n*hi]` by `n >= 1` gives a value in `[lo, hi]`. |
| Frame.AdaptedOnlySwitch | src/sim/main-loop-performance.ts:13-18 | The adaptive rule changes nothing but the collision switch, and acts only in adaptive mode on frames divisible by 30. |
| Frame.AdaptedByWindow | src/sim/main-loop-performance.ts:14-16 | When the rule acts, a window whose every sample reaches the threshold turns collisions on, and one whose every sample is below it turns them off. An empty window counts as 0 fps. |
| Frame.ApplyAdaptiveSettings | src/sim/main-loop-performance.ts:13-18 | The settings become the adapted settings for the current frame count and window. |
| Frame.DtRawBounds | src/sim/main-loop.ts:12 | With a non-negative speed, the frame time is at most `simSpeed/20`, and it is non-negative when the clock has not gone back. |
| Frame.SubCount | src/sim/main-loop.ts:18-19 | There is always at least one substep. A count between 1 and `2^31` is truncated to an integer. |
| Frame.SubstepsCover | src/sim/main-loop.ts:18-20 | The substeps of `h = dt/sub` together cover exactly `dt`. |
| Frame.Substep | src/sim/main-loop.ts:28-33 | One substep keeps the number of records: integrate, then collisions when they are on, then the walls. |
| Frame.Substeps | src/sim/main-loop.ts:27-34 | Any number of substeps keeps the number of records. |
| Frame.SubstepKeepsBodies | src/sim/main-loop.ts:28-33 | A substep keeps every radius, mass, inverse mass and colour. |
| Frame.SubstepsKeepBodies | src/sim/main-loop.ts:27-34 | Any number of substeps keeps every radius, mass, inverse mass and colour. |
| Frame.NoCollisionsNoDraws | src/sim/main-loop.ts:30-32 | With collisions off, a frame's substeps draw no random number. |
| Frame.RunSubsteps | src/sim/main-loop.ts:27-34 | The substep loop leaves the records and the draw counter as `sub` substeps give them. Each substep runs the step, the collision pass when on, and the walls. |
| Frame.AdvanceFrame | src/sim/main-loop.ts:16-35 | Nothing moves unless the simulation is running or single-stepping. Otherwise, when collisions are on, the grid is built once from the positions at the start of the frame. Then `max(1, substeps \| 0)` substeps of `dt/sub` each are run. |
| Frame.BeginFrame | src/sim/main-loop.ts:12-15 | The frame time is `min(1/20, (t - lastT)/1000) * simSpeed` and the clock becomes `t`. Then the metrics are updated and the adaptive rule is applied. |
| Frame.EndFrame | src/sim/main-loop.ts:39-40 | Single-stepping ends, and the frame counter grows by exactly one. |
| Frame.Frame | src/sim/main-loop.ts:11-42 | After every frame the clock is `t`, `stepOnce` is false and `frameCount` has grown by one. The metrics and the adaptive rule are applied. The grid is rebuilt before the substeps only when collisions are on. The particles move only when running or single-stepping, by `sub` substeps covering the frame time. `running`, the substep count, the cell size, the gravity source (`gDir`, `mouseGravity`), `heatDecay`, the pointer and the canvas are unchanged, and the state invariant is kept. |
| JsNumber.Trunc | src/sim/particles.ts:45 | The integer part toward zero. For `x >= 0` it is the largest integer at most `x`; for `x < 0` it is the smallest integer at least `x`. |
| JsNumber.ToInt32 | src/sim/main-loop-physics.ts:136 | `x \| 0` lies in `[-2^31, 2^31)` and is congruent to the truncation modulo `2^32`. It equals the truncation whenever `x` is inside that range. |
| JsNumber.ToUint32 | src/utils/utils.ts:95-96 | The unsigned 32-bit pattern lies in `[0, 2^32)` and is congruent to the truncation modulo `2^32`. |
| JsNumber.Floor | src/utils/utils.ts:4 | `Math.floor`: the integer `r` with `r <= x < r + 1`. |
| JsNumber.Round | src/sim/turbulence.ts:60 | `Math.round`: the integer `r` with `r - 1/2 <= x < r + 1/2`, so halves round up. |
| JsNumber.Max | src/sim/turbulence.ts:60 | `Math.max`: at least both arguments and equal to one of them. |
| JsNumber.Min | src/sim/turbulence.ts:60 | `Math.min`: at most both arguments and equal to one of them. |
| JsNumber.Abs | src/sim/physics/collisions.ts:83 | `Math.abs`: non-negative and equal to `x` or `-x`. |
| JsNumber.Div | src/sim/physics/collisions.ts:51 | For a non-zero divisor the quotient times the divisor is the dividend. |
| JsNumber.Or | src/sim/physics/collisions.ts:75 | The numeric `a \|\| b` is `a` when `a` is non-zero and `b` when it is zero. |
| Utils.RandBounds | src/utils/utils.ts:3 | For a draw in `[0, 1)`, `a + u(b - a)` lies in `[a, b)` when `a < b` and equals `a` when `a == b`. |
| Utils.LcgState | src/utils/utils.ts:96 | Every generator state stays in `[0, 2^32)`. |
| Utils.TrimStart | src/utils/utils.ts:10 | `parseInt`'s leading-whitespace skip returns a suffix of its input. That suffix is empty or starts with a character that is not JavaScript white space. |
| Utils.HexPrefixLength | src/utils/utils.ts:10 | The longest run of hex digits at the start: every character before it is a hex digit and the one at it is not. |
| Utils.HexDigitValue | src/utils/utils.ts:10 | A hex digit is worth less than 16. |
| Utils.Channel | src/utils/utils.ts:10-12 | The channel written by two hex digits is below 256. |
| Utils.ParsePair | src/utils/utils.ts:10 | `parseInt` of two hex digits in base 16 is `Some(16 * hi + lo)`. |
| Utils.ChannelText | src/utils/utils.ts:13 | The text `hexWithAlpha` writes for a channel is the decimal rendering of the channel's value. |
| SpatialHash.BucketOutside | src/sim/physics/grid.ts:15-16 | A key that none of the first `n` particles has gets no bucket entries. |
| SpatialHash.GridCellList | src/sim/physics/grid.ts:27-30 | Looking up `j`'s own cell while skipping `i != j` yields `j`. |
| SpatialHash.ColumnHas | src/sim/physics/grid.ts:27-31 | A column of the scan yields everything that any of its cells yields. |
| SpatialHash.BlockHas | src/sim/physics/grid.ts:26-32 | The whole block yields everything that any of its columns yields. |
| SpatialHash.ColumnOnly | src/sim/physics/grid.ts:27-31 | Everything a column yields is not the skipped index, and the lemma names the cell of the column whose bucket holds it. |
| SpatialHash.BlockOnly | src/sim/physics/grid.ts:26-32 | Everything the block yields is not the skipped index, and the lemma names the cell within the range whose bucket holds it. |
| RecordGrid.BucketCount | src/sim/grid.ts:6-11 | A bucket holds index `j` exactly once if `j` is among the first `n` particles and has that key, and otherwise not at all. |
| RecordGrid.WithoutCount | src/sim/grid.ts:23 | Skipping the particle itself removes every copy of it and changes no other multiplicity. |
| RecordGrid.CellCount | src/sim/grid.ts:19-25 | A scanned cell yields `j` once if `j` is in it and is not the particle itself, and otherwise never. |
| RecordGrid.ColumnCount | src/sim/grid.ts:19-25 | If only one cell of a column can have `j`'s key, the column yields `j` once when that cell has it and never otherwise. |
| RecordGrid.BlockCount | src/sim/grid.ts:19-25 | If only one cell of the 3x3 block can have `j`'s key, the block yields `j` exactly once when that cell has it and never otherwise. |
| RecordGrid.OnlyOwnCell | src/sim/grid.ts:19-25 | Away from the edges of `[0, 2^16)`, the 3x3 block around a cell reaches a neighbouring cell's key at exactly one offset: the offset of that cell. |
| WallKernel.SquareLeftWall | src/sim/physics-boundaries.ts:74-80 | A particle left of `cx - half + r` is put on that line. If it was moving left and its height is inside the square, `vx` becomes `-vx` times the restitution and `vy` is scaled by `1 - wf`. |
| MainLoopPhysics.AdvanceEuler | src/sim/main-loop-physics.ts:122-130 | For one particle, the unclamped step is semi-implicit Euler, `v' = v + (a - v*drag)*h` then `x' = x + v'*h`, and it keeps the radius, mass, inverse mass and colour, and the heat too unless the colour mode is `heat`. |
| PhysicsUtils.PackUnpackPrefix | src/sim/physics/utils.ts:4-40 | Packing the first `n` decoded particles gives back the first `8n` slots of the buffer. |
| PhysicsUtils.PackGrows | src/sim/physics/utils.ts:9-17 | After storing particle `i` over a buffer whose first `8i` slots are the image of the first `i` particles, the first `8(i+1)` slots are the image of the first `i + 1`. |
| ForceKernel.PointerForceSign | src/sim/physics-forces.ts:130-131 | A non-negative strength and inverse mass give a non-negative pointer magnitude, whatever the falloff. |
| ForceKernel.IntegrateByVelocity | src/sim/main-loop-physics.ts:7-132 | Integration depends on the acceleration and on the clamp switch only through the two new velocity components. |

## Left out

- Float32 storage: the buffer holds `real` values, so the model does not capture the rounding a `Float32Array` applies to each slot. The buffer round trip is exact only in this real-number model.
- NaN and the infinities: they are not represented. `JsNumber.Div` gives 0 for a zero divisor where JavaScript gives an infinity or NaN. Every property about a quotient is stated for a non-zero divisor.
- `Math.sqrt`, `Math.hypot`, `Math.sin`, `Math.cos`, `Math.pow` and `Math.PI` are opaque fields of `MathFns`. The only law assumed of them is `SqrtLaw`, so no property depends on the values of the trigonometric functions or of `pow`.
- The noise functions (`hash`, `noise2D`, `curlNoise`, `flowNoiseVec`) and `src/sim/turbulence.ts`: their values enter as parameters. These are the `NoiseFns` given to `precomputeNoiseFields`, the `TurbField` per-unit-mass turbulence of the inline modes, and the turbulence vector that `turbulenceForArray` returns to `applyForces`. Every inline turbulence mode scales its field by the inverse mass. The model keeps that factor and abstracts the rest of each mode's formula into the field.
- `Math.random()`: every draw is a value in `[0, 1)` taken from a `RandomSource` stream or passed in. No distribution is specified. `spawnPosFor` is not part of this model: the spawn position of a rebuilt particle is an input.
- `paletteColor` and the colour a rebuilt particle receives: the colour is an input string.
- Rendering, DOM and input: `clearBackground`, `drawParticles`, `updateHUD` and `requestAnimationFrame` in `frame` are not modelled. The renderer, HUD, UI and input files are not part of this model. The pointer, tilt and canvas size are fields of `World` set by the caller.
- Worker plumbing: `src/sim/physics/worker.ts`, `postMessage`, `performance.now` and the worker's own call of `precomputeNoiseFields` are not part of this model. `WorkerStep.Worker.Step` starts from the received message and ends with the particle records converted back from the buffer.
- Concurrency between the main thread and the worker is not modelled. Each step is a single sequential call.
- Strings are sequences of Unicode code points, not UTF-16 code units.
- `Utils.HexWithAlpha`: the alpha is passed as the text JavaScript would render for it. Its contract describes well-formed `#rrggbb` colours and the non-`#` early return; other malformed inputs follow the modelled `parseInt` but carry no further promise.
- `PhysicsUtils.Float32ArrayToParticles` and `PhysicsUtils.GetMaxRadius` require a buffer whose length is a multiple of 8. The source reads past the last whole particle otherwise, which yields `undefined` fields that the real-number model cannot represent.
- `SpatialHash.CellCoord` requires a positive cell size; the grid is never built with a zero cell.
- `RecordGrid.NeighborsAreAdjacent` and `RecordGrid.NeighborsOnce`: the grid key `(cx << 16) ^ cy` is injective only while cell coordinates stay in `[0, 2^16)`. Both lemmas are stated under that range. Outside it, distinct cells can share a key and a scan can return a particle from a far cell, exactly as the source does.
- `FlatCollisions.HandleCollisions`, `RecordCollisions.HandleCollisions` and the per-copy `HandleCollisions` methods are specified against `Collide`, which takes the neighbour lists as a function argument. A ghost `AgreesWithGrid` precondition ties that function to the grid the method reads, and `GridNeighborsAgree` shows the grid's own neighbour function meets it.
