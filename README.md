# Particle passes of the hyperPhyzx prototypes, in Dafny

This project models the simulation core of the `hyperPhyzx` browser
prototypes (`static/hyperPhyzx-p8.js`, `-p9.js`, `-p11.js`, `-p16.js`) and the
texture-path helper of `static/solar_system.js`, and proves properties of
that model.

Each prototype keeps its particles in flat `Float32Array` buffers. Particle
`i` occupies entries `3i`, `3i+1` and `3i+2` of a position buffer and of a
velocity buffer. Every animation frame runs a fixed sequence of in-place
passes over those buffers:

- **integration**: `vel += g; pos += vel`, with an optional ground plane at
  y = 0 that bounces with factor -0.5;
- **box clamps**: to the walls of a cube, written either as an `else if` or
  as two independent `if`s;
- **pairwise push-out**: pairs closer than a boundary are pushed apart along
  their difference, and in some prototypes damped by a friction factor;
- **neighbour lists**: the O(n²) `findNeighbors` scan of p9 and p16, or the
  k-d tree `KDTree3D` of p11;
- **smoothing**: each particle is moved toward the mean of its neighbours,
  computed from one snapshot of the positions;
- **density colouring** (p16): each particle is coloured from teal toward
  deep blue by its neighbour count.

The model follows that structure:

- **Buffers** are `array<real>`.
- **Each pass** is a `method` with the source's loops. Each method is proved
  against a function on the buffer contents: `MapParticles` for the
  per-particle loops, `Rows`/`Row` for the pair loops, `SmoothAll` for the
  snapshot smoothing, `Painted` for the colouring, `CloseIn` for the
  neighbour lists.
- **Properties of those functions** are proved as lemmas. Examples: the
  push-out conserves the centre of mass; with friction 1 it keeps every
  velocity; clamped particles lie inside the cube; a smoothed particle stays
  in any box that holds it and its neighbours; the neighbour relation is
  symmetric; the k-d tree query returns exactly the brute-force answer.
- **The k-d tree** is a datatype. `buildTree` is a function over a stable
  insertion sort. `neighborsWithin` is a recursive function. The tree is
  proved to store a permutation of its input and to be ordered on
  `depth % 3` at every node. Its query is proved to report, with
  multiplicity, exactly the points strictly inside the radius, each particle
  index at most once.
- **`resolveTexturePath`** is modelled over JavaScript's `split`, `pop` and
  `join`, including the `undefined` file name for a name without a dot. The
  model proves:
  - the shape of the result;
  - the result has exactly one `.`;
  - the count of `/`;
  - the round trip back to the dotted name;
  - the Mercury entry of the planet table.

Points about what the code does that the contracts make explicit:

- **Self-exclusion in p9 and p16.** The `findNeighbors` lists contain other
  particles only. So smoothing with factor 1 moves a particle onto the mean
  of the others (`Smoothing.SmoothedFactors`, `Neighbors.CloseInSymmetric`).
- **Self-inclusion in p11.** The k-d tree query reports the particle itself
  whenever the particle has moved less than the neighbour radius since the
  tree was built (`HyperPhyzxP11.SelfOnOwnList`). The smoothing skips lists
  of length at most 1 (`skipUpTo` = 1). So a particle that moved farther and
  has exactly one neighbour is skipped too (`HyperPhyzxP11.MovedAwayExample`
  shows such a list).
- **A stale tree in p11.** The tree is built once, from the positions at the
  start of the frame. The collision and smoothing passes then query it at
  positions that the physics step, and then the push-out, have already
  moved. `HyperPhyzxP11.Animate` states this stale-tree behaviour exactly.
- **The smoothing lists in the cube passes of p9 and p16.** These passes
  average over lists found before the inline push-out moved the particles.
  `AnimateCube` states exactly that.

Modules: `Vectors`, `Integration`, `Boundary`, `PushOut`, `Neighbors`,
`Smoothing`, `Coloring`, `KDTree`, `TexturePath`, and one module per
prototype (`HyperPhyzxP8`, `HyperPhyzxP9`, `HyperPhyzxP11`, `HyperPhyzxP16`)
holding its constants and its `animate`.

## Model

| member | source | states |
|---|---|---|
| Vectors.LengthSqNonNegative | static/hyperPhyzx-p16.js:131-133 | `lengthSq` is at least each squared component, so never negative |
| Vectors.DistSqSymmetric | static/hyperPhyzx-p9.js:113-116 | the squared distance of a pair does not depend on which particle is subtracted from which |
| Vectors.LerpEnds | static/hyperPhyzx-p9.js:229-231 | `lerp` with factor 0 keeps the start; with factor 1 it reaches the target |
| Vectors.LerpBetween | static/hyperPhyzx-p9.js:229-231 | for a factor in [0, 1] the interpolated value lies between the start and the target |
| Vectors.MapParticlesAt | static/hyperPhyzx-p9.js:128-143 | after a per-particle loop, each particle below n is the step applied to its own old state; entries from 3n on are untouched |
| Vectors.MapParticlesNext | static/hyperPhyzx-p9.js:128-143 | one more iteration replaces exactly particle n |
| Vectors.AddAt | static/hyperPhyzx-p9.js:130-136 | the three `+=` on a particle add the vector to that particle and change nothing else |
| Vectors.ScaleAt | static/hyperPhyzx-p9.js:173-179 | the three `*= friction` scale that particle only |
| Vectors.SubAt | static/hyperPhyzx-p9.js:168-170 | the three `-=` subtract the vector from that particle only |
| Boundary.ClampElseIfSpec | static/hyperPhyzx-p9.js:192-198 | the `else if` clamp puts the coordinate inside a non-empty range; it keeps an inside coordinate and its velocity; past a wall it sets the wall and multiplies the velocity by the bounce |
| Boundary.TwoIfsIsElseIf | static/hyperPhyzx-p8.js:135-144 | on a non-empty range the two independent `if`s never both fire, so they equal the `else if` form |
| Boundary.EmptyRangeVariants | static/hyperPhyzx-p8.js:135-144 | on an empty range the two forms differ: the two `if`s end on the lower wall and bounce twice; the `else if` stops at the upper wall |
| Boundary.ClampBodyInBox | static/hyperPhyzx-p8.js:135-144 | either per-particle clamp puts the particle in the box; both forms agree; a particle already inside is untouched |
| Boundary.ClampParticleElseIf | static/hyperPhyzx-p9.js:190-199 | the loop over c = 0..2 replaces particle i by its `else if` clamp and changes nothing else |
| Boundary.ClampParticleTwoIfs | static/hyperPhyzx-p8.js:135-144 | the loop over j = 0..2 replaces particle i by its two-`if` clamp and changes nothing else |
| Boundary.ClampEntryTwoIfs | static/hyperPhyzx-p8.js:136-143 | the two `if`s on one buffer entry write exactly that entry's clamped coordinate and velocity |
| Boundary.ClampInsideCube | static/hyperPhyzx-p9.js:186-201 | `clampInsideCube` maps every particle below count through the `else if` clamp to [-half+radius, half-radius] with bounce -0.5 |
| Boundary.ClampInsideCubeContains | static/hyperPhyzx-p16.js:210-225 | with radius at most half, every clamped particle lies in the cube; one already inside keeps its state |
| Integration.GravityStepSpec | static/hyperPhyzx-p9.js:128-143 | the velocity gains g before the position moves by the new velocity; below y = 0 with the ground on, y becomes 0 and the y velocity is multiplied by -0.5; otherwise nothing else changes |
| Integration.StepParticle | static/hyperPhyzx-p9.js:129-142 | the component-wise body writes exactly the gravity step of particle i |
| Integration.GroundAt | static/hyperPhyzx-p9.js:139-142 | the ground test sets y to 0 and bounces the y velocity only when y < 0; otherwise both buffers are unchanged |
| Integration.Integrate | static/hyperPhyzx-p9.js:128-143 | the loop maps every particle below count through the gravity step |
| Integration.IntegrateAboveGround | static/hyperPhyzx-p16.js:161-174 | with the ground on, no particle below count ends under y = 0 |
| Coloring.DensityFactor | static/hyperPhyzx-p16.js:271 | `min(dens/20, 1)` lies in [0, 1]; it is dens/20 below 20 and 1 from 20 on |
| Coloring.DensityColorSpec | static/hyperPhyzx-p16.js:270-283 | red is 0 and blue is 1; green is 0.8 - 0.03·dens below 20 and 0.2 from 20 on; no neighbours gives teal (0, 0.8, 1) |
| Coloring.DensityColorMonotone | static/hyperPhyzx-p16.js:270-278 | more neighbours never make a particle greener |
| Coloring.PaintedAt | static/hyperPhyzx-p16.js:269-284 | every particle below n gets the colour of its own neighbour count, with green in [0.2, 0.8]; entries from 3n on are kept |
| Coloring.ColorByDensity | static/hyperPhyzx-p16.js:265-285 | `colorByDensity` leaves the colour buffer painted from each particle's list length |
| Neighbors.CloseInSpec | static/hyperPhyzx-p9.js:104-123 | a particle is on k's list iff it is another particle below the bound strictly within the radius; the list is strictly increasing (no duplicates) |
| Neighbors.CloseInSymmetric | static/hyperPhyzx-p9.js:117-120 | b is on a's list iff a is on b's, and no particle is on its own list |
| Neighbors.RecordPair | static/hyperPhyzx-p9.js:111-121 | one inner step appends j to i's list and i to j's exactly when they are close, keeping every list equal to the scan so far |
| Neighbors.FindNeighbors | static/hyperPhyzx-p9.js:104-123 | after `findNeighbors` every list below count is exactly the close-particle list of that particle; lists beyond count are untouched |
| PushOut.PairStepFromSpec | static/hyperPhyzx-p9.js:150-180 | inside the guard, i moves by +push and j by -push, and both velocities are scaled by the friction; outside it the state is unchanged; no other particle changes |
| PushOut.PairStepFromConserves | static/hyperPhyzx-p9.js:164-170 | one pair update keeps the sum of every coordinate over the particles |
| PushOut.PairSumPreserved | static/hyperPhyzx-p9.js:164-170 | the pair's two positions keep their sum |
| PushOut.PairSeparates | static/hyperPhyzx-p9.js:156-170 | when the push is a positive multiple λ of the difference, the pair's squared distance grows by the factor (1+2λ)² and never shrinks |
| PushOut.RowConserves | static/hyperPhyzx-p9.js:149-181 | a finished inner loop keeps every axis sum |
| PushOut.RowsConserve | static/hyperPhyzx-p9.js:146-182 | the whole pair pass keeps the centre of mass of the particles below count |
| PushOut.PairStepFrictionOne | static/hyperPhyzx-p16.js:198-203 | with friction 1 a pair update leaves the velocity buffer as it was |
| PushOut.RowFrictionOne | static/hyperPhyzx-p16.js:180-205 | with friction 1 an inner loop keeps every velocity |
| PushOut.RowsFrictionOne | static/hyperPhyzx-p16.js:177-206 | with friction 1 the whole pass keeps every velocity |
| PushOut.TwoParticleExample | static/hyperPhyzx-p9.js:146-182 | two particles at (0,0,0) and (1,0,0) with a unit push end at (-1,0,0) and (2,0,0) |
| PushOut.RowsOfTwo | static/hyperPhyzx-p9.js:147-182 | with two particles the pass is the single pair (0, 1) |
| PushOut.ApplyPair | static/hyperPhyzx-p9.js:150-180 | the body of the pair loop writes exactly one pair update |
| PushOut.PushOutPass | static/hyperPhyzx-p9.js:145-182 | the nested `i < j` loops produce exactly the pair pass over all pairs in order |
| Smoothing.CloseInInBuffer | static/hyperPhyzx-p9.js:218-223 | every index on a `findNeighbors` list reads inside the position buffer |
| Smoothing.SmoothAllAt | static/hyperPhyzx-p9.js:207-240 | the smoothed buffer is the per-particle smoothing of the snapshot; entries from 3n on are kept |
| Smoothing.SmoothedFactors | static/hyperPhyzx-p9.js:229-231 | with factor 1 a particle with more neighbours than the skip threshold lands on their mean; with factor 0 it stays put |
| Smoothing.SumOfInBox | static/hyperPhyzx-p9.js:217-223 | the sum of m positions in a box lies in m times the box |
| Smoothing.MeanInBox | static/hyperPhyzx-p9.js:217-226 | the mean of positions in a box lies in the box |
| Smoothing.SmoothedInBox | static/hyperPhyzx-p9.js:212-231 | for a factor in [0, 1], a particle in a box whose neighbours are all in the box stays in it |
| Smoothing.MeanOf | static/hyperPhyzx-p9.js:217-226 | the summing loop and the divisions compute the neighbours' mean |
| Smoothing.SmoothOne | static/hyperPhyzx-p9.js:213-231 | one iteration skips a short list and otherwise writes the lerp toward the mean into the copy only |
| Smoothing.NeighborSmooth | static/hyperPhyzx-p9.js:207-240 | `neighborSmooth` leaves the positions smoothed from one snapshot, and the velocities unchanged |
| Smoothing.CopyInto | static/hyperPhyzx-p9.js:209-210 | `set` copies the whole buffer |
| KDTree.Insert | static/hyperPhyzx-p11.js:13 | inserting into a sorted list keeps it sorted and adds exactly one point |
| KDTree.SortOn | static/hyperPhyzx-p11.js:13 | the sort on one axis is a sorted permutation of its input |
| KDTree.BuildTreeEmpty | static/hyperPhyzx-p11.js:11 | the tree is empty iff the point list is; an empty tree answers every query with nothing |
| KDTree.BuildTreePermutation | static/hyperPhyzx-p11.js:10-21 | the tree stores exactly the input points, each once |
| KDTree.SortedSplit | static/hyperPhyzx-p11.js:13-19 | after the sort, the points before the median are not above it and those after are not below it |
| KDTree.BuildTreeWellFormed | static/hyperPhyzx-p11.js:10-21 | every node splits on depth % 3 with its left subtree not above and its right subtree not below its point |
| KDTree.PruneOne | static/hyperPhyzx-p11.js:32-38 | a point on the far side of a node's plane, when `diff² >= radiusSq`, is not within the radius |
| KDTree.PruneSound | static/hyperPhyzx-p11.js:32-38 | no point of the subtree the query skips is within the radius |
| KDTree.NodeMatchesBrute | static/hyperPhyzx-p11.js:22-39 | one node's report equals the brute-force scan of its points, given that of its subtrees |
| KDTree.NeighborsWithinIsBrute | static/hyperPhyzx-p11.js:22-39 | on an ordered tree `neighborsWithin` reports, with multiplicity, exactly the stored points strictly within the radius |
| KDTree.PointOf | static/hyperPhyzx-p11.js:136-141 | the point of particle i carries its three coordinates and the index i |
| KDTree.PointsOf | static/hyperPhyzx-p11.js:133-142 | the list handed to the tree is particles 0..n-1 in order |
| KDTree.BruteIndicesSpec | static/hyperPhyzx-p11.js:40-44 | the reference answer holds an index iff it is a particle below n strictly within the radius, in increasing order |
| KDTree.BruteIndicesCount | static/hyperPhyzx-p11.js:40-44 | the reference answer names each index at most once: exactly once if that particle is close |
| KDTree.BruteOfPointsOf | static/hyperPhyzx-p11.js:133-143 | scanning the built point list is the scan by particle index |
| KDTree.NeighborsWithinBelow | static/hyperPhyzx-p11.js:22-39 | a query reports only indices the tree stores |
| KDTree.BuildTreeIndicesBelow | static/hyperPhyzx-p11.js:132-144 | the tree over the first n particles stores only indices below n |
| KDTree.QueryIsBruteForce | static/hyperPhyzx-p11.js:40-44 | `query(x, y, z, r2)` on that tree names particle k exactly once if it is strictly within the radius, and otherwise not at all |
| KDTree.BuildKDTree | static/hyperPhyzx-p11.js:132-144 | `buildKDTree` builds the ordered tree of the first n positions, which stores a permutation of the points and answers every query as the brute-force scan does |
| HyperPhyzxP11.BuoyancySign | static/hyperPhyzx-p11.js:199-203 | buoyancy is positive iff the temperature is above 50, zero iff it equals 50, negative iff it is below |
| HyperPhyzxP11.PhysicsStepSpec | static/hyperPhyzx-p11.js:196-227 | after a physics step the particle is in [-25, 25]³; one the integration left inside has velocity 0.8 × the heated one; a crossed wall is set and its velocity component becomes × -0.3 × 0.8 |
| HyperPhyzxP11.BuoyancyOnlyY | static/hyperPhyzx-p11.js:199-203 | temperature affects only y: two equal particles at different temperatures agree on x and z |
| HyperPhyzxP11.PhysicsPassInBox | static/hyperPhyzx-p11.js:196-227 | after the physics loop every particle is inside the cube |
| HyperPhyzxP11.PhysicsParticle | static/hyperPhyzx-p11.js:197-226 | the loop body writes exactly particle i's physics step |
| HyperPhyzxP11.PhysicsNext | static/hyperPhyzx-p11.js:196-227 | one iteration extends the finished prefix of the physics loop by particle i |
| HyperPhyzxP11.PhysicsPass | static/hyperPhyzx-p11.js:196-227 | the physics loop maps every particle through its step at its own temperature |
| HyperPhyzxP11.Near | static/hyperPhyzx-p11.js:235 | the collision query on a tree over particles below n names only particles below n |
| HyperPhyzxP11.CollisionPairSpec | static/hyperPhyzx-p11.js:237-264 | only a pair strictly between 1e-8 and 9 apart is touched; then its position sum is kept and both velocities are scaled by 0.8 |
| HyperPhyzxP11.CollideListConserves | static/hyperPhyzx-p11.js:236-265 | particle i's inner loop keeps every axis sum |
| HyperPhyzxP11.CollideAllConserves | static/hyperPhyzx-p11.js:229-267 | the whole collision loop keeps the centre of mass, whatever the tree reports |
| HyperPhyzxP11.CollideParticle | static/hyperPhyzx-p11.js:231-266 | the body for particle i pushes it against every other reported particle, from its position read before the inner loop |
| HyperPhyzxP11.CollisionPass | static/hyperPhyzx-p11.js:229-267 | the collision loop produces exactly the modelled pass over the given tree |
| HyperPhyzxP11.QueryListsInBuffer | static/hyperPhyzx-p11.js:276 | every smoothing list names particles of the buffer |
| HyperPhyzxP11.QueryListsSpec | static/hyperPhyzx-p11.js:276 | on the tree built from the frame's start positions, the list of particle k names particle m once if m's start-of-frame position is strictly within radius 8 of k's current position, else not at all |
| HyperPhyzxP11.OnList | static/hyperPhyzx-p11.js:272-276 | m is on k's list exactly when m is a particle whose start-of-frame position is strictly within 8 of k's current position |
| HyperPhyzxP11.SelfOnOwnList | static/hyperPhyzx-p11.js:272-277 | particle k is on its own list exactly when its current position is strictly within 8 of its start-of-frame position |
| HyperPhyzxP11.MovedAwayExample | static/hyperPhyzx-p11.js:272-277 | a particle that moved 10 from the origin is not on its own list, while one that started 5 away from it is, so that list has a real neighbour and no self entry |
| HyperPhyzxP11.SmoothPass | static/hyperPhyzx-p11.js:270-291 | the smoothing loop leaves the positions smoothed from one snapshot over the tree's lists, skipping lists of length at most 1 |
| HyperPhyzxP11.SmoothNext | static/hyperPhyzx-p11.js:275-290 | one iteration extends the smoothed prefix of the copy by particle i |
| HyperPhyzxP11.Animate | static/hyperPhyzx-p11.js:183-298 | a frame is tree build, physics, collisions and smoothing in that order, with both later passes on the tree of the frame's start positions |
| HyperPhyzxP8.DistanceGuard | static/hyperPhyzx-p8.js:103-104 | for a distance, the squared test equals `distance < boundarySize` |
| HyperPhyzxP8.CubeStepInBox | static/hyperPhyzx-p8.js:123-144 | a cube particle ends its step inside the walls, and the two-`if` clamp acts there as an `else if` |
| HyperPhyzxP8.CollisionPairSpec | static/hyperPhyzx-p8.js:97-114 | nothing changes unless the pair is closer than the boundary; the pair's position sum and all velocities are kept |
| HyperPhyzxP8.CollisionRowSpec | static/hyperPhyzx-p8.js:97-114 | a collision row keeps every velocity and every axis sum |
| HyperPhyzxP8.CollideRow | static/hyperPhyzx-p8.js:97-114 | the loop over k skips i and pushes i against every other particle from i's current position |
| HyperPhyzxP8.UpdateFree | static/hyperPhyzx-p8.js:78-115 | loop (1) interleaves each free particle's gravity step with its collision row, in order |
| HyperPhyzxP8.UpdateCube | static/hyperPhyzx-p8.js:123-165 | loop (2) does the same with the local gravity and the wall clamp |
| HyperPhyzxP9.GuardsDiffer | static/hyperPhyzx-p9.js:292 | the cube guard `0 < d2 < 100` accepts every pair the free guard accepts; it also accepts a pair at d2 = 5e-7, which the free guard rejects; neither accepts d2 = 0 or d2 = 100 |
| HyperPhyzxP9.FreePairSpec | static/hyperPhyzx-p9.js:150-180 | strictly between 1e-6 and boundary² the pair keeps its position sum and both velocities are scaled by 0.9; otherwise nothing changes |
| HyperPhyzxP9.CubePairSpec | static/hyperPhyzx-p9.js:285-316 | the same for the inline cube pass with 0 < d2 < 100 |
| HyperPhyzxP9.CollidedSpec | static/hyperPhyzx-p9.js:126-183 | `collisionPass` keeps the centre of mass the integration produced; with the ground on no particle is under y = 0 after the integration |
| HyperPhyzxP9.CubeClampedInBox | static/hyperPhyzx-p9.js:265-278 | after the inline integration and the clamp every cube particle is in [-49, 49]³ |
| HyperPhyzxP9.CollisionPass | static/hyperPhyzx-p9.js:126-183 | `collisionPass` is the integration followed by the pair pass |
| HyperPhyzxP9.AnimateFree | static/hyperPhyzx-p9.js:250-255 | the free half is collision pass, neighbour lists on the new positions, then smoothing with 0.1 |
| HyperPhyzxP9.AnimateCube | static/hyperPhyzx-p9.js:261-320 | the cube half is integration, clamp, neighbour lists, inline push-out, then smoothing over the pre-push lists |
| HyperPhyzxP16.PairSpec | static/hyperPhyzx-p16.js:180-205 | strictly between 1e-8 and boundary² the pair keeps its position sum; otherwise nothing changes; no velocity changes |
| HyperPhyzxP16.CollidedSpec | static/hyperPhyzx-p16.js:159-207 | `collisionPass` keeps the velocities and the centre of mass the integration produced; with the ground on no particle is under y = 0 after the integration |
| HyperPhyzxP16.CubeClampedInBox | static/hyperPhyzx-p16.js:308-321 | after the inline integration and the clamp every cube particle is in [-42, 42]³ |
| HyperPhyzxP16.CubePushKeepsVelocities | static/hyperPhyzx-p16.js:324-352 | the inline cube push-out keeps every velocity |
| HyperPhyzxP16.CollisionPass | static/hyperPhyzx-p16.js:159-207 | `collisionPass` is the integration followed by the pair pass |
| HyperPhyzxP16.AnimateFree | static/hyperPhyzx-p16.js:298-305 | the free half is collision pass, neighbour lists, smoothing with 0.1, then colouring by list length |
| HyperPhyzxP16.AnimateCube | static/hyperPhyzx-p16.js:307-358 | the cube half is integration, clamp, lists, inline push-out, smoothing over the pre-push lists, then colouring |
| TexturePath.Split | static/solar_system.js:87 | `split` always returns at least one segment |
| TexturePath.SplitPieces | static/solar_system.js:87 | segments hold only non-separator characters of the input; there is one more segment than separators |
| TexturePath.JoinSplit | static/solar_system.js:87-90 | joining the segments with the same separator gives the input back |
| TexturePath.SplitJoin | static/solar_system.js:87-90 | splitting a join of separator-free segments gives the segments back |
| TexturePath.ResolveForm | static/solar_system.js:86-92 | the result is the first k-2 segments joined by '/', then '/', the file name, '.' and the extension; with one segment the file name is `undefined` |
| TexturePath.AssembleForm | static/solar_system.js:88-91 | the same shape, stated on the segments |
| TexturePath.ExtensionKept | static/solar_system.js:88-91 | the result ends in '.' and the last segment |
| TexturePath.OneDot | static/solar_system.js:86-92 | the result holds exactly one '.' |
| TexturePath.Slashes | static/solar_system.js:86-92 | for an input without '/', k >= 3 segments give k-2 slashes, and 2 segments give one |
| TexturePath.RoundTrip | static/solar_system.js:86-92 | for an input without '/', turning every '/' back into '.' gives the input with k >= 3 segments, and the input behind a '.' with two |
| TexturePath.TwoSegments | static/solar_system.js:86-92 | with two segments the result is '/' followed by the input |
| TexturePath.MercuryExample | static/solar_system.js:62 | Mercury's texture resolves to `assets/solar_system/planets/mercury/8k_mercury.jpg` |

## Left out

- Rendering, the scene graph, camera controls, resize and mouse-drag handlers: they are presentation and input, not simulation.
- `requestAnimationFrame` and the frame clock: each `animate` is modelled as one frame.
- The random initial positions, velocities and temperatures (`Math.random`): the model starts from any buffers.
- `applyQuaternion` and the cube's rotation: the cube-local gravity `g` is a parameter of the cube passes, since quaternion arithmetic needs floating point with square roots.
- `Math.sqrt`, the normalised direction and the push of `0.5 * overlap`: the push vector is a parameter `push` applied to the pair's difference. Every lemma holds for any push; `PushOut.PairSeparates` covers the case where the push is a positive multiple of the difference.
- `HyperPhyzxP8.CollisionParams`: p8 has no lower distance guard, so a pair at distance 0 passes the `distance < boundarySize` test. There `normalize()` gives the zero vector, so the source's push maps the zero difference to zero. The model leaves `push` arbitrary, and every lemma holds for that push too.
- Float32 rounding: buffers hold mathematical reals, so every proved equality is exact arithmetic rather than single-precision arithmetic.
- The in-place reordering of the caller's `points` array by `buildTree`'s `sort`: the tree is built from the sorted copy, and only the tree is observed afterwards.
- `KDTree.SortOn`: JavaScript's `sort` with a comparator is modelled by a stable insertion sort, so points with equal coordinates keep their input order.
- The `posArray` parameter of `colorByDensity`: the function never reads it.
- The orbital mechanics, GUI panels and planet meshes of `static/solar_system.js`: only `resolveTexturePath` is modelled.
- `run_js.py`: a launcher, not part of the simulation.
- `HyperPhyzxP11.PhysicsPass`: it requires the temperature buffer to be a different array from both particle buffers. In the source they are separate `Float32Array`s.
- `HyperPhyzxP11.TempOf`: it reads a temperature of 50 for a particle beyond the temperature buffer. The loop only reads particles below `numParticles`, and those lie inside the buffer.
- The Mercury lemma covers only Mercury. The other planets' names have the same shape, and `TexturePath.RoundTrip` and `TexturePath.ResolveForm` hold for any name.
