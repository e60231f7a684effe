# Barnes-Hut particle simulation, modelled in Dafny

This project models the computational core of a small Java gravity simulator. On every
tick, `ParticleSimulationClean` does the following:

1. It builds a Barnes-Hut quadtree over its particles.
2. It computes the total mass and centre of mass of every node.
3. It accelerates every particle by the tree's approximate gravitational force.
4. It advances every particle by a semi-implicit Euler step and bounces it off the walls of
   the panel.
5. It either resolves colliding pairs with an impulse or merges them into one particle.

The user can also add a particle in orbit around the centre, and a resize puts the two
central stars back in place. The older pairwise simulators share the `Planet` integrator,
which is modelled too.

The model follows the structure of the Java classes:

- `numerics.dfy` (`Numerics`): Java `int` wrap-around and the narrowing cast. It also holds
  the square root as a parameter constrained by `IsSqrt`.
- `geometry.dfy` (`Geometry`): `Rectangle2D.Double` with its half-open `contains`, and the
  four quadrants of `subdivide`.
- `kinematics.dfy` (`Kinematics`): the semi-implicit Euler step shared by `Particle.update`
  and `Planet.updatePosition`.
- `particles.dfy` (`Particles`): the mutable `Particle` class, its value snapshot `Body`, and
  sums of mass, mass moment and momentum.
- `quadtree.dfy` (`QuadTrees`): the quadtree, held in a class as an arena.
  - `nodes` holds the node records. The root is at index 0, and children are indices into
    the arena.
  - `summaries` is a parallel column holding each node's `totalMass` and centre of mass.
    `calculateMass` overwrites it in place.
  - `insert`, `subdivide`, `calculateMass` and `calculateForce` are methods on this arena.
- `collisions.dfy` (`Collisions`): the two collision passes of `collideParticles` and
  `mergeParticles`, stated as functions on snapshots of the particle list.
- `simulation.dfy` (`Simulation`): the `ParticleSimulation` class holding the particle list,
  the tree and the merge flag.
  - `updateParticles`, `handleCollisions`, `collideParticles`, `mergeParticles`,
    `addParticleAt` and `repositionParticles` are methods on it.
  - Each of these methods is proved equal to the specification function of its module.

Doubles are modelled as mathematical reals. `Math.sqrt` is a function parameter. Every use
requires that it yields the non-negative square root of a non-negative argument. The cube
root of the merge and the logarithm of `Planet` are parameters with no properties assumed.

## Model

| member | source | states |
|---|---|---|
| Numerics.Wrap32 | src/Two/Particle.java:16 | a Java `int` result equals the mathematical one when it is in range and is congruent to it modulo 2^32 otherwise |
| Numerics.DoubleToInt | src/Planet.java:20 | the `(int)` cast of a double truncates toward zero and saturates at the bounds of `int` |
| Geometry.QuadrantsPartition | src/Two/QuadTree.java:70-73 | a point the region contains lies in exactly one of the four quadrants; a point it does not contain lies in none |
| Geometry.QuadrantsInside | src/Two/QuadTree.java:70-73 | each quadrant lies inside its parent region |
| Geometry.SizeExceedsGap | src/Two/QuadTree.java:43-57 | a region that contains two points at least `delta` apart is longer than `delta`, so a separated pair can always be split further |
| Geometry.HalvingsDrop | src/Two/QuadTree.java:64-78 | each quadrant of a region longer than `delta` needs strictly fewer halvings than the region: the recursion of `insert` through `subdivide` terminates |
| Kinematics.EulerStep | src/Two/Particle.java:39-46 | the velocity is advanced first, and the position is then advanced with the new velocity |
| Kinematics.StepUndone | src/Two/Particle.java:39-46 | the step is invertible: undoing it restores the state it started from |
| Kinematics.StepClosedForm | src/Planet.java:23-29 | the new position is `x + v·dt + a·dt²`, the semi-implicit order |
| Kinematics.StepWithoutTime | src/Planet.java:23-29 | a step of length zero changes neither position nor velocity |
| Kinematics.StepWithoutAcceleration | src/Planet.java:23-29 | without acceleration the velocity stays and the position moves by `v·dt` |
| Particles.Particle.constructor | src/Two/Particle.java:12-21 | the particle is at rest at the given position, with mass `radius·radius·0.1`, the product taken in Java `int` arithmetic |
| Particles.Particle.Full | src/Two/Particle.java:23-32 | the particle stores the given position, radius, mass and velocity, with an empty acceleration buffer |
| Particles.Particle.Update | src/Two/Particle.java:39-51 | the position and velocity take one Euler step with the buffered acceleration; the buffer is reset to zero; mass and radius stay |
| Particles.Particle.ApplyForce | src/Two/Particle.java:54-57 | `fx/mass` and `fy/mass` are added to the buffer, and nothing else changes |
| Particles.ForcesAccumulate | src/Two/Particle.java:54-57 | two applied forces amount to one with their sum, in either order |
| Particles.Particle.Place | src/Two/ParticleSimulationClean.java:324-332 | assigning position and velocity fields directly leaves mass, radius and buffer unchanged |
| Particles.Particle.SetVelocity | src/Two/Particle.java:60-63 | only the velocity changes |
| Particles.Particle.SetMass | src/Two/Particle.java:66-68 | only the mass changes |
| Particles.Bodies | src/Two/ParticleSimulationClean.java:37 | the snapshot of a list has one entry per particle, each that particle's state |
| Particles.BodiesPermutation | src/Two/ParticleSimulationClean.java:37 | particle lists that are permutations of each other have snapshots that are permutations of each other |
| Particles.SumPermutation | src/Two/QuadTree.java:101-105 | a sum of masses or moments does not depend on the order of its terms |
| Particles.TotalMassNonNegative | src/Two/QuadTree.java:101-110 | bodies of non-negative mass have a non-negative total mass |
| Particles.WeightlessHasNoMoment | src/Two/QuadTree.java:107-110 | bodies of non-negative mass that weigh nothing in total have no mass moment, so a weightless leaf's centre stays at the origin |
| Planets.Planet.constructor | src/Planet.java:13-21 | position, mass and velocity are stored as given; the radius is `(int) (log(mass) * 2)` |
| Planets.Planet.UpdatePosition | src/Planet.java:23-29 | position and velocity take one semi-implicit Euler step; mass and radius are not touched |
| Planets.RadiusMonotone | src/Planet.java:20 | with a monotone logarithm a heavier planet never gets a smaller radius |
| QuadTrees.Seeded | src/Two/QuadTree.java:25-33 | a single empty node is a well-formed tree that holds no particle |
| QuadTrees.QuadTree.constructor | src/Two/QuadTree.java:25-33 | a new tree is one empty, undivided leaf over the boundary with zero mass and centre |
| QuadTrees.QuadTree.Insert | src/Two/QuadTree.java:36-61 | the result is true exactly when the boundary contains the position; on false nothing changes; on true the tree holds one more copy of the particle; a leaf with room appends it and changes no other node; otherwise the node ends divided; the tree stays well formed, with every leaf within capacity and every particle inside its node's region; it stays a tree grown block by block, in which the old blocks keep their creators and the creators of new blocks are divided; the old summaries stay and the summaries of new nodes are zero; every old node whose region does not contain the particle is unchanged |
| QuadTrees.QuadTree.Store | src/Two/QuadTree.java:43-46 | a leaf with room appends exactly that particle and changes no other node, so the tree keeps its shape |
| QuadTrees.QuadTree.Descend | src/Two/QuadTree.java:48-57 | a full leaf is subdivided before the quadrants are tried; the insertion then succeeds, the tree holds one more copy of the particle, the node is divided and the tree keeps its shape; the old summaries stay, the new ones are zero, and every old node whose region does not contain the particle is unchanged |
| QuadTrees.QuadTree.InsertIntoQuadrants | src/Two/QuadTree.java:53-60 | on a divided node whose region contains the particle, the quadrant tries always succeed, so the final `return false` is unreachable over exact reals; the tree then holds one more copy of the particle, stays well formed and keeps its shape; the old summaries stay, the new ones are zero, and every old node whose region does not contain the particle is unchanged |
| QuadTrees.QuadTree.Subdivide | src/Two/QuadTree.java:64-91 | four empty quadrants of half the width and height are linked as NW, NE, SW and SE; the node becomes divided and its own list is emptied; the particles held overall are unchanged; the node becomes the creator of the new last block of the tree |
| QuadTrees.QuadTree.Branch | src/Two/QuadTree.java:70-78 | the four new children are the quadrants `(x,y)`, `(x+w/2,y)`, `(x,y+h/2)` and `(x+w/2,y+h/2)`, each `w/2` by `h/2`, with the parent's capacity and zero summaries |
| QuadTrees.QuadTree.Scatter | src/Two/QuadTree.java:81-87 | every particle of the old leaf goes to one of the four quadrants, which then hold exactly those particles |
| QuadTrees.QuadTree.Reinsert | src/Two/QuadTree.java:83-86 | trying the fresh quadrants from quadrant `k` on, the particle goes to the first whose region contains it, as that quadrant's last particle; the quadrants tried before it do not contain it, and no other node changes |
| QuadTrees.QuadTree.Settle | src/Two/QuadTree.java:89-90 | the subdivided node is marked divided and its own particle list is emptied |
| QuadTrees.Sprouted | src/Two/QuadTree.java:70-78 | appending the four empty quadrants keeps the tree well formed and its particles unchanged |
| QuadTrees.Subdivided | src/Two/QuadTree.java:89-90 | once the particles are moved down, marking the node divided and emptying it keeps the tree well formed and leaves it holding exactly the particles it held before the split |
| QuadTrees.HeldUpdate | src/Two/QuadTree.java:44 | replacing one node changes the particles held by exactly the difference of the two particle lists |
| QuadTrees.BranchShape | src/Two/QuadTree.java:70-78 | linking a leaf that created no block to four new leaves at the end of the arena keeps the arena a tree, with that leaf the creator of the new last block |
| QuadTrees.SettleShape | src/Two/QuadTree.java:89-90 | marking the creator of the last block divided and empty keeps the arena a tree |
| QuadTrees.ChildSettled | src/Two/QuadTree.java:53-60 | the four children of a divided node come after it in the arena, so every child is a valid target of `insert` |
| QuadTrees.CollapseShaped | src/Two/QuadTree.java:64-91 | folding the last subdivision back into its creator gives a tree of the same shape one block shorter, holding the same particles |
| QuadTrees.Rooted | src/Two/QuadTree.java:36-91 | in a tree built by `insert` and `subdivide`, the leaves below the root hold exactly the particles the tree holds, each as often as it was inserted |
| QuadTrees.QuadTree.CalculateMass | src/Two/QuadTree.java:94-133 | every node of the subtree gets the summary its own subtree determines, whatever it held before, so a second call leaves the same values; entries outside the subtree can only be rewritten with their own summary |
| QuadTrees.Aggregate | src/Two/QuadTree.java:94-133 | the summary `calculateMass` leaves in a node: for a leaf that of its particles, for a divided node the combination of its four children's; `MassIsSubtreeSum`, `WeightedCentre` and `CentreIsMean` prove it is the total mass and mean position of the subtree |
| QuadTrees.LeafSummary | src/Two/QuadTree.java:99-110 | a leaf's summary: the total mass, and the mass moments divided by the total when it is positive (undivided otherwise); `LeafMass` proves the leaf loop computes it |
| QuadTrees.Combine | src/Two/QuadTree.java:111-131 | a divided node's summary: the four masses add, and for a positive total the centre is the mass-weighted mean of the children's centres, otherwise the origin; `CombineMass` states it |
| QuadTrees.Centred | src/Two/QuadTree.java:107-110 | a positive mass turns moments into a centre by division; any other mass leaves the given fallback centre |
| QuadTrees.QuadTree.SummarizeLeaf | src/Two/QuadTree.java:99-110 | a leaf's summary is the sum and the mean of its particles |
| QuadTrees.QuadTree.SummarizeParent | src/Two/QuadTree.java:111-131 | a divided node's summary combines those of its four children |
| QuadTrees.LeafMass | src/Two/QuadTree.java:99-110 | a leaf's loop computes its total mass and, for a positive total, the mass-weighted mean position, else the origin |
| QuadTrees.Accumulate | src/Two/QuadTree.java:101-105 | the loop sums the masses and the two mass moments of the leaf's particles |
| QuadTrees.CombineMass | src/Two/QuadTree.java:118-130 | the children's masses are added, and a positive total divides the summed weighted centres |
| QuadTrees.MassIsSubtreeSum | src/Two/QuadTree.java:94-133 | each node's total mass is the sum of the masses of all particles in its subtree |
| QuadTrees.WeightedCentre | src/Two/QuadTree.java:94-133 | each node's centre times its mass is the summed mass moment of its subtree |
| QuadTrees.CentreIsMean | src/Two/QuadTree.java:94-133 | with non-negative masses a node's centre of mass is the mass-weighted mean position of its subtree when its mass is positive, and the origin when it is zero |
| QuadTrees.GatheredBelow | src/Two/QuadTree.java:94-164 | the bodies `calculateMass` and `calculateForce` reach below a node are the snapshots of the particles below it, leaf by leaf |
| QuadTrees.RootGathersAll | src/Two/QuadTree.java:94-164 | when the root's subtree holds a list of particles, the bodies reached below the root are the snapshots of that list, with multiplicity |
| QuadTrees.LoneTree | src/Two/QuadTree.java:94-164 | a tree built by insertions that holds the single particle `p` reaches exactly the snapshot of `p` below its root |
| QuadTrees.ZeroCentre | src/Two/QuadTree.java:95-97 | a weightless node keeps the centre `(0, 0)` it is reset to |
| QuadTrees.QuadTree.CalculateForce | src/Two/QuadTree.java:136-164 | only the particle's acceleration buffer changes, and it grows by the Barnes-Hut force `ForceOn` of the subtree divided by the particle's mass |
| QuadTrees.ForceOn | src/Two/QuadTree.java:136-164 | the Barnes-Hut force of a subtree on a particle; `LightCase`, `NearCase`, `PointCase` and `SplitCase` state its four branches, `PointForceAlong` the direction and size of a point force |
| QuadTrees.LightCase | src/Two/QuadTree.java:137 | a weightless node exerts no force |
| QuadTrees.NearCase | src/Two/QuadTree.java:145-146 | a node whose centre of mass is closer than 0.1 exerts no force |
| QuadTrees.PointCase | src/Two/QuadTree.java:150-156 | a leaf or a far node (`width/distance < theta`) acts as one point mass `G·m·M/d²` along the offset |
| QuadTrees.SplitCase | src/Two/QuadTree.java:157-162 | a near divided node exerts the sum of its four children's forces |
| QuadTrees.PointForceAlong | src/Two/QuadTree.java:152-154 | a point force is parallel to the offset and, for non-negative masses, points toward the node, with magnitude `G·m·M/d²` |
| QuadTrees.NoForceAtCentre | src/Two/QuadTree.java:140-146 | a node exerts no force on a particle at its own centre of mass |
| QuadTrees.LoneSummary | src/Two/QuadTree.java:94-133 | the summary of a tree holding one body has that body's mass and, when positive, the body's position |
| QuadTrees.LoneParticleFeelsNothing | src/Two/QuadTree.java:136-164 | a tree holding a single particle exerts no force on that particle |
| QuadTrees.FourForces | src/Two/QuadTree.java:159-162 | applying the four children's forces one after the other accelerates like applying their sum |
| Collisions.SeparationSquares | src/Two/ParticleSimulationClean.java:228-233 | the distance of a pair is non-negative and its square is the squared offset |
| Collisions.Separation | src/Two/ParticleSimulationClean.java:231-233 | the distance of the two centres, `Math.sqrt(dx*dx + dy*dy)` with the square root a parameter; `SeparationSquares` proves it non-negative with the squared offset as its square |
| Collisions.Reach | src/Two/ParticleSimulationClean.java:236 | the sum of the two radii in Java `int` arithmetic, so it wraps around as `p1.radius + p2.radius` does |
| Collisions.Overlap | src/Two/ParticleSimulationClean.java:236 | two particles collide when their distance is below the summed radii |
| Collisions.Normal | src/Two/ParticleSimulationClean.java:238-239 | the offset divided by the distance; `NormalIsUnit` proves it a unit vector at positive distance; at distance zero it is `(0, 0)` in place of Java's NaN |
| Collisions.VelAlongNormal | src/Two/ParticleSimulationClean.java:242-246 | the relative velocity of `p2` with respect to `p1`, projected on the normal; `ResolveGuard` uses it for the separating-pair test of line 249 |
| Collisions.ImpulseScalar | src/Two/ParticleSimulationClean.java:252-254 | the impulse `-(1 + 0.8) * velAlongNormal / (1/m1 + 1/m2)`; `ImpulseRestitutes` proves it leaves the pair with -0.8 times its normal velocity |
| Collisions.Penetration | src/Two/ParticleSimulationClean.java:267 | half the summed radii minus the distance: the length each correction is scaled from |
| Collisions.Share | src/Two/ParticleSimulationClean.java:271-274 | the fraction `m / (m1 + m2)` of the pair's mass that one particle carries, by which the other particle's correction is weighted; `ExchangeConserves` proves the weighting keeps the centroid |
| Collisions.NormalIsUnit | src/Two/ParticleSimulationClean.java:252-254 | the normal of a pair at a positive distance is a unit vector |
| Collisions.Exchange | src/Two/ParticleSimulationClean.java:252-274 | the impulse and the correction change velocities and positions only: both masses and radii stay |
| Collisions.ExchangeConserves | src/Two/ParticleSimulationClean.java:252-274 | the impulse keeps the pair's momentum `m1·v1 + m2·v2`, and the penetration correction keeps its mass-weighted centroid |
| Collisions.ExchangeRelative | src/Two/ParticleSimulationClean.java:252-265 | an impulse changes the relative normal velocity by its normal component times the summed inverse masses |
| Collisions.ImpulseRestitutes | src/Two/ParticleSimulationClean.java:252-265 | along a unit normal the impulse reverses the relative normal velocity and scales it by 0.8 |
| Collisions.Resolve | src/Two/ParticleSimulationClean.java:226-274 | one inner step keeps both masses and radii; it leaves a pair alone when merging is on, when the pair does not overlap, when it is at distance zero or when its relative normal velocity is positive; otherwise both particles receive the impulse along the normal and the penetration correction |
| Collisions.ResolveGuard | src/Two/ParticleSimulationClean.java:236-274 | an overlapping pair at a positive distance, with merging off, is changed exactly when its relative normal velocity is not positive: a pair moving apart is skipped, a pair with zero normal velocity is resolved |
| Collisions.ResolveConserves | src/Two/ParticleSimulationClean.java:226-274 | one inner step keeps the pair's total momentum and mass-weighted centroid |
| Collisions.ResolveRestitutes | src/Two/ParticleSimulationClean.java:236-265 | a pair that is changed is at a positive distance and leaves with its relative normal velocity reversed and scaled by 0.8 |
| Collisions.PushedMoves | src/Two/ParticleSimulationClean.java:259-274 | an impulse adds itself to a particle's momentum, and a move adds itself, weighted by the mass, to its mass moment |
| Collisions.Pair | src/Two/ParticleSimulationClean.java:226-274 | visiting one pair keeps the list's length |
| Collisions.CollideInner | src/Two/ParticleSimulationClean.java:226-276 | the inner loop keeps the list's length |
| Collisions.CollideOuter | src/Two/ParticleSimulationClean.java:223-277 | the outer loop keeps the list's length |
| Collisions.CollidePass | src/Two/ParticleSimulationClean.java:222-278 | `collideParticles` keeps the list's length |
| Collisions.UpToIsInner | src/Two/ParticleSimulationClean.java:226-276 | running the inner loop to the end is applying its pairs one after the other in index order |
| Collisions.CollideRuleResolves | src/Two/ParticleSimulationClean.java:226-274 | the pair rule of the pass is `Resolve` on every pair of positive masses |
| Collisions.CollidePassConserves | src/Two/ParticleSimulationClean.java:222-278 | `collideParticles` keeps the list's length, every particle's mass and radius, the total mass, the total momentum and the system's centre of mass |
| Collisions.CollideWhileMerging | src/Two/ParticleSimulationClean.java:236 | while merging is on `collideParticles` changes nothing |
| Collisions.Merged | src/Two/ParticleSimulationClean.java:294-308 | the merged particle's mass is the sum of the two masses |
| Collisions.MassMean | src/Two/ParticleSimulationClean.java:294-300 | the mass-weighted mean of two values; `MeanMoment` proves that times the summed mass it is the summed moment |
| Collisions.Volume | src/Two/ParticleSimulationClean.java:303-305 | the summed cubes of the two integer radii, each `Math.pow(r, 3)` taken exactly |
| Collisions.MergedRadius | src/Two/ParticleSimulationClean.java:303-305 | the ceiling of the cube root of the summed volume, cast to `int`; the cube root is a parameter |
| Collisions.MergedConserves | src/Two/ParticleSimulationClean.java:294-308 | the merged particle carries the pair's mass, momentum and mass moment: its velocity and position are the mass-weighted means |
| Collisions.MeanMoment | src/Two/ParticleSimulationClean.java:296-301 | a mass-weighted mean times the summed mass is the summed moment |
| Collisions.Remove | src/Two/ParticleSimulationClean.java:311 | removing an entry shrinks the list by one |
| Collisions.MergeAt | src/Two/ParticleSimulationClean.java:292-315 | a merge event shrinks the list by exactly one and writes the merged particle into slot `i` |
| Collisions.MergeAtParts | src/Two/ParticleSimulationClean.java:311-312 | a merge event keeps the entries before `i` and between `i` and `j`, and moves those after `j` up by one |
| Collisions.MergeAtConserves | src/Two/ParticleSimulationClean.java:292-315 | a merge of the current particle at `i` with entry `j` keeps the list's total mass, momentum and mass moment |
| Collisions.MergeInner | src/Two/ParticleSimulationClean.java:284-316 | the inner loop, with `p1` read once, never grows the list, never removes slot `i` and keeps the masses positive |
| Collisions.MergeStep | src/Two/ParticleSimulationClean.java:313 | after a merge event the inner loop visits the same index `j` again (`j--`) |
| Collisions.MergeInnerPrefix | src/Two/ParticleSimulationClean.java:284-316 | the inner loop for index `i` leaves the entries before `i` alone |
| Collisions.MergeShrinks | src/Two/ParticleSimulationClean.java:311-315 | the inner loop shrinks the list by exactly its number of merge events |
| Collisions.MergeOuter | src/Two/ParticleSimulationClean.java:281-318 | the outer loop never grows the list and keeps the masses positive |
| Collisions.MergePass | src/Two/ParticleSimulationClean.java:280-319 | `mergeParticles` never grows the list and keeps the masses positive |
| Collisions.NoMergeKeeps | src/Two/ParticleSimulationClean.java:284-316 | an inner loop without a merge event changes nothing |
| Collisions.MergeInnerConserves | src/Two/ParticleSimulationClean.java:281-316 | an inner loop with at most one merge event keeps the total mass, momentum and mass moment |
| Collisions.MergePassConserves | src/Two/ParticleSimulationClean.java:280-319 | when no particle of the outer loop merges twice, `mergeParticles` keeps the total mass, the total momentum and the system's centre of mass |
| Collisions.StaleMergeLosesMass | src/Two/ParticleSimulationClean.java:281-316 | without that condition the pass loses mass: on three copies of one self-overlapping particle the stale `p1` is merged twice into slot 0, leaving one particle of twice the mass instead of three times |
| Collisions.Collided | src/Two/ParticleSimulationClean.java:213-220 | the collision step of a tick: the merge pass when merging is on, otherwise the collide pass; `HandleCollisions` is proved to realise it |
| Simulation.LaunchNeedsDistance | src/Two/ParticleSimulationClean.java:142-147 | a click adds a particle exactly when it is at least 20 from the centre |
| Simulation.LaunchTangential | src/Two/ParticleSimulationClean.java:149-154 | the added particle sits at the click with mass 10 and radius 5 and moves perpendicular to its offset from the centre (`vx·dx + vy·dy == 0`) |
| Simulation.LaunchSpeed | src/Two/ParticleSimulationClean.java:150-152 | the added particle's squared speed is 0.49 times `G·2000/distance`, the squared speed of a circular orbit around a mass of 2000 |
| Simulation.Launch | src/Two/ParticleSimulationClean.java:140-156 | the particle a click adds, or none; `LaunchNeedsDistance`, `LaunchTangential` and `LaunchSpeed` state when it exists, where it sits, its mass and radius, its direction and its speed |
| Simulation.Offset | src/Two/ParticleSimulationClean.java:142-143 | `x - centerX` in Java `int` arithmetic, widened to a double |
| Simulation.OrbitSpeed | src/Two/ParticleSimulationClean.java:150 | 0.7 times the square root of `G * 2000 / distance`; `LaunchSpeed` states its square |
| Simulation.ParticleSimulation.constructor | src/Two/ParticleSimulationClean.java:43-50 | the simulation is centred in the 800 by 600 panel, with an empty list, merging off and no tree |
| Simulation.ParticleSimulation.AddParticleAt | src/Two/ParticleSimulationClean.java:140-156 | a click within 20 of the centre changes nothing; otherwise exactly one fresh particle with the launch state is appended and the earlier ones stay |
| Simulation.ParticleSimulation.Add | src/Two/ParticleSimulationClean.java:155 | `particles.add` appends the particle |
| Simulation.Stars | src/Two/ParticleSimulationClean.java:324-332 | the first star is placed `PARTICLE_OFFSET` left of the centre with velocity `(0, 1)`, the second right of it with `(0, -1)`; masses and radii stay |
| Simulation.StarsBalanced | src/Two/ParticleSimulationClean.java:321-334 | two stars of equal mass away from the ends of the `int` range have the centre as centre of mass and no total momentum |
| Simulation.ParticleSimulation.RepositionParticles | src/Two/ParticleSimulationClean.java:321-334 | with at least two particles the first two become the stars; every other particle, and every particle when there are fewer than two, is unchanged |
| Simulation.BounceConfines | src/Two/ParticleSimulationClean.java:199-206 | after the wall step the particle is inside the panel; a coordinate outside the panel is clamped to its edge and reverses its velocity component, damped by 0.8; a coordinate inside keeps its value and its velocity component; no component gets faster |
| Simulation.BounceIdempotent | src/Two/ParticleSimulationClean.java:199-206 | a particle already inside the panel does not bounce, so bouncing twice is bouncing once |
| Simulation.Bounced | src/Two/ParticleSimulationClean.java:199-206 | the wall step: the x axis is checked first, then the y axis; `BounceConfines` gives each axis's exact branch and `BounceIdempotent` shows a particle inside is left alone |
| Simulation.Lowest | src/Two/ParticleSimulationClean.java:160-168 | the running `Math.min` from `Double.MAX_VALUE` over the particles in list order; `LowestBounds` and `SearchSnoc` characterise it |
| Simulation.Highest | src/Two/ParticleSimulationClean.java:160-168 | the running `Math.max` from `Double.MIN_VALUE` over the particles in list order; `HighestBounds` and `SearchSnoc` characterise it |
| Simulation.Boundary | src/Two/ParticleSimulationClean.java:170-178 | the bounding box of the search widened by 100 on every side; `BoundaryCovers` proves it contains every particle |
| Simulation.LowestBounds | src/Two/ParticleSimulationClean.java:160-168 | the minimum search finds a lower bound of its start value and of every coordinate |
| Simulation.HighestBounds | src/Two/ParticleSimulationClean.java:160-168 | the maximum search finds an upper bound of its start value `Double.MIN_VALUE` and of every coordinate |
| Simulation.SearchSnoc | src/Two/ParticleSimulationClean.java:163-168 | one more particle in the bounds loop takes one more `Math.min` and `Math.max` |
| Simulation.BoundaryCovers | src/Two/ParticleSimulationClean.java:160-184 | the widened bounding box contains every particle, so no insertion of the tick is turned away |
| Simulation.SpacingExists | src/Two/ParticleSimulationClean.java:182-184 | particles at distinct positions are some positive distance apart, which bounds the depth of every insertion |
| Simulation.ApartFromEarlier | src/Two/ParticleSimulationClean.java:182-184 | each particle is that distance away from every particle inserted before it |
| Simulation.Advanced | src/Two/ParticleSimulationClean.java:195-207 | a particle's motion over the tick keeps its mass and radius |
| Simulation.Moved | src/Two/ParticleSimulationClean.java:190-207 | the tick's force and motion loops keep the list's length and positive masses |
| Simulation.MovedEach | src/Two/ParticleSimulationClean.java:190-207 | each particle moves on its own: entry `k` is particle `k` advanced and bounced under the tree's pull on its old position |
| Simulation.MovedConfines | src/Two/ParticleSimulationClean.java:190-207 | after the motion every particle is inside the panel and keeps its mass and radius |
| Simulation.Pull | src/Two/ParticleSimulationClean.java:190-192 | the acceleration an empty buffer receives from `calculateForce` on the tick's tree: the tree's `ForceOn` at the body divided by its mass; `ApplyForces` is proved to fill every buffer with it |
| Simulation.RootMirrors | src/Two/ParticleSimulationClean.java:178-187 | a root whose subtree holds the particle list reaches, below it, exactly the list's snapshot, with multiplicity |
| Simulation.PlantedRoot | src/Two/ParticleSimulationClean.java:178-187 | the root of the tick's tree carries the total mass of the whole list, and its centre of mass is the list's mass-weighted mean position, or the origin when the list weighs nothing |
| Simulation.LoneTreeFeelsNothing | src/Two/ParticleSimulationClean.java:186-191 | with a single particle in the list, the tick's tree exerts no force on it |
| Simulation.ParticleSimulation.UpdateParticles | src/Two/ParticleSimulationClean.java:158-211 | a fresh tree over the widened bounding box is stored in `quadTree`, holding every particle once, with its summaries computed; the particles end as the collision step applied to the tick's motion under that tree |
| Simulation.ParticleSimulation.Prepare | src/Two/ParticleSimulationClean.java:158-207 | the tree is planted, then every particle is moved by the tick's motion under it |
| Simulation.ParticleSimulation.PlantTree | src/Two/ParticleSimulationClean.java:160-187 | the new tree covers the widened bounding box, holds every particle exactly once, has every node summarized, and reaches the snapshot of every particle once below its root |
| Simulation.ParticleSimulation.Bounds | src/Two/ParticleSimulationClean.java:160-175 | the loop's minimum and maximum, widened by 100 on every side, are `Boundary` |
| Simulation.ParticleSimulation.BuildTree | src/Two/ParticleSimulationClean.java:178-184 | a tree of capacity 4 over the boundary, into which every particle is inserted in list order, holds exactly the particles of the list and is well formed, and the leaves below its root hold each particle of the list once |
| Simulation.ParticleSimulation.Motion | src/Two/ParticleSimulationClean.java:190-207 | the force and motion loops move every particle as `Moved` says |
| Simulation.ParticleSimulation.ApplyForces | src/Two/ParticleSimulationClean.java:190-192 | every particle's empty buffer receives the tree's pull on its position |
| Simulation.ParticleSimulation.PullAt | src/Two/ParticleSimulationClean.java:191 | one `calculateForce` call fills the buffer of particle `k` and of no other |
| Simulation.ParticleSimulation.Advance | src/Two/ParticleSimulationClean.java:195-207 | after the motion loop every particle is where `Moved` puts it and every buffer is empty |
| Simulation.ParticleSimulation.MoveAt | src/Two/ParticleSimulationClean.java:195-207 | one step of the motion loop moves particle `k` and no other |
| Simulation.ParticleSimulation.AdvanceOne | src/Two/ParticleSimulationClean.java:196-206 | `update(TIME_STEP)` followed by the wall step is `Advanced` of the buffered acceleration, and the buffer ends empty |
| Simulation.ParticleSimulation.HandleCollisions | src/Two/ParticleSimulationClean.java:213-220 | exactly one of the merge pass and the collide pass runs, chosen by `shouldMerge`; the collide pass keeps the list itself |
| Simulation.ParticleSimulation.CollideParticles | src/Two/ParticleSimulationClean.java:222-278 | the list and every mass stay, and the new snapshot is `CollidePass` of the old one |
| Simulation.ParticleSimulation.CollideFrom | src/Two/ParticleSimulationClean.java:226-276 | the inner loop for `i` turns the snapshot into `CollideInner` of it |
| Simulation.ParticleSimulation.CollideAt | src/Two/ParticleSimulationClean.java:226-274 | one pair step resolves particles `i` and `j` and leaves every other particle alone |
| Simulation.ParticleSimulation.CollidePair | src/Two/ParticleSimulationClean.java:226-274 | the two particle objects receive the result of `Resolve` |
| Simulation.ParticleSimulation.MergeParticles | src/Two/ParticleSimulationClean.java:280-319 | the new snapshot is `MergePass` of the old one, and the list stays one of distinct particles of positive mass |
| Simulation.ParticleSimulation.MergeInto | src/Two/ParticleSimulationClean.java:281-316 | the inner loop for `i`, with `p1` read once before it, turns the snapshot into `MergeInner` of it |
| Simulation.ParticleSimulation.Replace | src/Two/ParticleSimulationClean.java:311-312 | `remove(j)` then `set(i, merged)` on the list is `MergeAt` on the snapshot |
| Simulation.SnapsAfterMerge | src/Two/ParticleSimulationClean.java:311-312 | the snapshot after the list's remove and set is the merge event on the snapshot |

## Left out

- Swing and AWT are left out: drawing, the timer, mouse, key and component listeners, popup menus and `main`. A click becomes a call of `AddParticleAt`, and a resize a call of `RepositionParticles`.
- `setupInitialParticles` and `setupRandomParticles` are left out: they depend on `java.util.Random` and trigonometry. The modelled constructor starts with an empty list.
- Updating `centerX` and `centerY` on a resize is left out: it is listener code. The centre is a field that `AddParticleAt` and `RepositionParticles` read.
- `getWidth()` and `getHeight()` become the `width` and `height` parameters of `UpdateParticles`.
- IEEE-754 doubles are modelled as exact reals: no rounding, overflow to infinity or NaN. The `Double.MAX_VALUE` and `Double.MIN_VALUE` starting values of the bounds search are kept as constants. This includes the quirk that `Double.MIN_VALUE` is positive. The constants are Java's shortest decimal literals, not the exact binary values (`Double.MIN_VALUE` is 2^-1074); no proof depends on their exact value.
- `Math.sqrt`, the cube root of the merge radius and `Math.log` of the planet radius are function parameters. Only the square root is constrained, by `IsSqrt`. The merge radius is stated through the cube root but not proved to combine the volumes.
- The colour of a planet is not modelled: it is only stored and drawn.
- Simulation.ParticleSimulation.UpdateParticles: requires particles at distinct positions. The helpers `Prepare` and `PlantTree` carry the same requirement (`DistinctPositions`), and `BuildTree` its positive-spacing form (`Spaced`). Over exact reals the recursion of `insert` is unbounded when more than `capacity` particles coincide, because every `subdivide` re-fills one child; that is why the requirement is there. The Java code also finishes when at most `capacity` particles share a position, which the model does not cover.
- In doubles the recursion does end: after about 54 halvings, for coordinates in the hundreds, `x + w/2` rounds back to `x`, every child's half-open `contains` fails, `subdivide` places none of the coincident particles and `particles.clear()` discards them. `insert` then returns `false`, the caller ignores it, and those particles are silently missing from the tree. The model does not capture this precision floor or the lost particles.
- QuadTrees.QuadTree.Insert: requires a leaf with room, or a particle some ghost distance `delta` away from every particle already held. This is the termination argument of the previous line; the Java method has no precondition. `Descend` and `InsertIntoQuadrants` carry the same requirement (`Apart`). It also requires the ghost shape of the arena (`Shaped`, `Settled`), which the constructor and every insertion establish.
- QuadTrees.QuadTree.CalculateForce: requires a non-null particle of non-zero mass. The Java `particle == null` early return is not modelled, and a mass of zero would divide by zero in `applyForce`.
- Particles.Particle.ApplyForce: requires a non-zero mass, since the real-number model cannot divide by zero where Java would produce an infinity or NaN.
- Collisions.Resolve: a pair at distance zero is left unchanged. In Java the normal of such a pair is NaN and the particles are corrupted.
- Simulation.ParticleSimulation.HandleCollisions: the list is required to hold distinct particle objects of positive mass and with empty acceleration buffers between ticks. Every Java path that adds a particle keeps this true.
- The tree of a tick is stored in `quadTree` once it is built and summarized, not at its creation. Nothing reads the field in between.
- The `return false` at the end of `insert` has no counterpart. It is unreachable over exact reals: `InsertIntoQuadrants` proves that one quadrant always accepts the particle. In doubles it is reached at the precision floor described above.
- Convergence of the Barnes-Hut approximation as `theta` tends to zero, and long-run orbital behaviour, are numerical-analysis claims and are not stated.
