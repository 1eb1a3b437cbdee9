# frontier-folly core, modelled in Dafny

This project models the game logic at the core of frontier-folly, a Bevy
space game that places objects on a floating-origin grid. It covers:

- `SpacePosition` arithmetic and lag smoothing (`position.dfy`, module
  `Positions`). A position is an integer grid cell plus a small offset.
- The sync between the physics solver's frame and the render transforms,
  anchored on the single `PhysicsOrigin` body (`big_space_sync.dfy`, module
  `BigSpaceSync`). The bodies live in a `PhysicsWorld` class whose passes
  update them in place.
- The laser gun fire-flag handshake (`laser_gun.dfy`, module `LaserGuns`).
- Laser beam bullets: spawning, flying and lifetime countdown
  (`laser_beam_bullet.dfy`, module `LaserBeamBullets`).
- Small hypergates: the builder ring, the initial gate state, the open and
  despawn timers, and the output marker's timer (`small_hypergate.dfy`,
  module `SmallHypergates`).
- The sand cloud's per-frame cull and top-up (`sand_cloud.dfy`, module
  `SandClouds`).

`engine.dfy` (module `Engine`) holds the shared value types: `Vec3`, integer
grid cells, opaque quaternions, transforms, colours and entity ids.

Modelling conventions:

- Floats are `real`s and the `i64` grid cells are `int`s. The algebra is
  exact: no rounding and no overflow.
- A query is a sequence or an array of rows in iteration order. A pass that
  mutates components in place works on an `array` (guns, bullets, gates) or
  on the `PhysicsWorld.bodies` field.
- `Commands` and `EventWriter`s become returned sequences of despawned
  entities, spawn records or events, applied after the pass.
- A `single()`/`single_mut()` query panics unless exactly one entity
  matches. The model reports that as `ok == false` or `None`, with nothing
  changed.
- `Duration`s are natural numbers of nanoseconds. `Duration::from_secs_f32`
  is exact for the gate thresholds 1.25 s, 3.75 s and 7.5 s.
- The elapsed time, the frame delta and the random samples are parameters.
- Fresh entity ids are drawn from a counter.

The grid library's conversions are not part of this model. Only their
contract is assumed: `GridPositionDouble(edge, p)` is `cell * edge + offset`,
and `translation_to_grid` is any function whose result converts back to the
world vector it was given (`IsTranslationToGrid`). No claim is made about
which cell it picks.

The physics sync runs two passes in order. `fix_origin_to_zero` moves every
other body by minus the origin's physics position, adds that position to
the origin's render translation, and zeroes it. `sync_transforms` then
writes each changed, unparented body's physics pose into its render
transform, measured against the origin's global translation as last
propagated. Every body's `Position` is written through a mutable reference
in the first pass, so every body counts as changed in the second.
`ChainUpdatesEveryUnparentedBody` states the consequence.
`ChainRenderLagsOriginShift` states that the render frame trails the
physics frame by the origin's old physics position until the next frame.

The sand cloud's volume uses the factor `3.0 / 4.0` exactly as written,
although a ball's volume has 4/3.

## Model

| member | source | states |
|---|---|---|
| Positions.Add | src/position.rs:28-37 | component-wise sum of cells and of offsets with no carry, so subtracting either operand gives back the other |
| Positions.Sub | src/position.rs:39-48 | component-wise difference of cells and of offsets with no borrow, so adding the subtrahend's cell and offset back gives the minuend |
| Positions.Smooth | src/position.rs:15-25 | the world value of the smoothed position is `target + lagWeight * (current - target)`, as the comment in `smooth` says, for any grid conversion that round-trips |
| Positions.SmoothAtRest | src/position.rs:19-24 | smoothing toward the current position, or with lag weight 0, lands on the target's world value |
| Positions.SmoothStepError | src/position.rs:19-24 | one smoothing step multiplies the world-space error to the target by the lag weight |
| Positions.SmoothConverges | src/position.rs:15-25 | after `n` smoothing steps toward a fixed target, the world-space error is `lagWeight^n` times the initial error |
| Positions.AddWorld | src/position.rs:28-37 | the world value of a sum is the sum of the world values |
| Positions.SubWorld | src/position.rs:39-48 | the world value of a difference is the difference of the world values |
| Positions.NoCarry | src/position.rs:28-48 | the cell of a sum or difference depends only on the operands' cells, and its offset only on their offsets |
| Positions.AddSubInverse | src/position.rs:28-48 | `(a - b) + b == a` and `(a + b) - b == a`, exactly |
| Positions.EqualityIsStructural | src/position.rs:8-12 | two positions are equal exactly when their cells and their offsets are equal; this is definitional over reals and says nothing about `f32` signed zeros or NaN |
| BigSpaceSync.SingleOrigin | src/physics/big_space_sync.rs:44 | returns an index exactly when one body carries the origin marker, and that index is the sole origin |
| BigSpaceSync.PhysicsWorld.FixOriginToZero | src/physics/big_space_sync.rs:40-53 | succeeds exactly when there is one origin, and then yields `FixedToZero` of the old bodies; otherwise nothing changes |
| BigSpaceSync.PhysicsWorld.SyncTransforms | src/physics/big_space_sync.rs:55-91 | succeeds exactly when there is one origin, and then yields `Synced` of the old bodies against the origin's global translation; otherwise nothing changes |
| BigSpaceSync.PhysicsWorld.PostUpdateSync | src/physics/big_space_sync.rs:12-19 | the two passes run chained in order: the result is the sync applied to the re-zeroed bodies, and a missing or duplicated origin changes nothing |
| BigSpaceSync.FixedKeepsMarkers | src/physics/big_space_sync.rs:40-53 | re-zeroing keeps the origin marker, parents, global translations and rotations, so the origin stays the sole origin |
| BigSpaceSync.FixedOriginAtZero | src/physics/big_space_sync.rs:50-52 | the origin's physics position becomes zero and its render translation grows by its old physics position |
| BigSpaceSync.FixedShiftsOthers | src/physics/big_space_sync.rs:46-48 | every other body's physics position decreases by the origin's old position; its render transform is untouched and it is marked changed |
| BigSpaceSync.FixedPreservesRelativePositions | src/physics/big_space_sync.rs:46-52 | the difference between any two bodies' physics positions, the origin included, is unchanged |
| BigSpaceSync.SyncAlignsRenderWithPhysics | src/physics/big_space_sync.rs:85-89 | a changed body without a parent gets translation += physics position - (global - origin global), so its global translation as last propagated, moved by the same amount, sits at its physics position relative to the origin's global translation as last propagated; it takes the physics rotation |
| BigSpaceSync.SyncKeepsPhysicsAndSkipsOthers | src/physics/big_space_sync.rs:62-90 | the sync never changes physics state, leaves unchanged or parented bodies as they were, and clears every change mark |
| BigSpaceSync.ChainUpdatesEveryUnparentedBody | src/physics/big_space_sync.rs:14-17 | after both passes, every body without a parent has the physics rotation, and its render translation is moved so that its last propagated global translation, moved the same way, sits at its re-zeroed physics position relative to the origin's last propagated global translation; parented bodies keep their render transform |
| BigSpaceSync.ChainRenderLagsOriginShift | src/physics/big_space_sync.rs:40-91 | for unparented bodies whose global translation has caught up with their render translation, after both passes a body's render translation relative to the origin's is its physics offset from the origin minus the origin's old physics position; the two agree exactly when the origin was already at zero |
| LaserGuns.FireFromLaserGun | src/object/laser_gun.rs:27-44 | every gun ends up `Disarmed`, and the events are `Shots` of the old guns, in query order |
| LaserGuns.DisarmedClearsFlag | src/object/laser_gun.rs:31-43 | after the pass no gun wants to fire; a gun that did not want to fire is unchanged |
| LaserGuns.ShotsCount | src/object/laser_gun.rs:32-40 | exactly one event per gun whose fire flag was set |
| LaserGuns.ShotAt | src/object/laser_gun.rs:33-40 | the armed gun at index `i` sends the event after those of the armed guns before it, copying translation, cell, facing, colour, speed and lifetime |
| LaserGuns.SecondPassIsSilent | src/object/laser_gun.rs:32-41 | running the pass on its own output sends nothing |
| LaserBeamBullets.LaserBeamFlying | src/object/laser_beam_bullet.rs:46-76 | every bullet is replaced by `Tick` of itself, and the despawns are `Despawns` of the old bullets, in query order |
| LaserBeamBullets.TickUpdate | src/object/laser_beam_bullet.rs:52-74 | a tick takes exactly `dt` off the lifetime; an expiring bullet keeps its transform and previous transform; a surviving one moves `speed * dt` along its facing and remembers its global transform |
| LaserBeamBullets.DespawnedIffExpired | src/object/laser_beam_bullet.rs:53-55 | a bullet is despawned exactly when its decremented lifetime is at most zero |
| LaserBeamBullets.TickKeepsLifetimeInBounds | src/object/laser_beam_bullet.rs:53-55 | with `dt >= 0`, a bullet that survives has a lifetime in `(0, maxLifetime]` |
| LaserBeamBullets.SpawnLaserBeamBullets | src/object/laser_beam_bullet.rs:78-104 | one bullet per event, with lifetime and max lifetime equal to the event's lifetime, no previous transform, and the event's cell, colour, speed, position and facing |
| SmallHypergates.Neighbors | src/object/small_hypergate.rs:240-243 | the two neighbour indices of a builder are on the ring |
| SmallHypergates.NeighborsDistinct | src/object/small_hypergate.rs:240-243 | on a ring of at least three, a builder is not its own neighbour and its two neighbours differ |
| SmallHypergates.NeighborsSymmetric | src/object/small_hypergate.rs:240-243 | `j` is a neighbour of `i` exactly when `i` is a neighbour of `j` |
| SmallHypergates.NextPrev | src/object/small_hypergate.rs:240-243 | stepping to the next builder and then the previous one, or the other way round, returns to the start |
| SmallHypergates.RingSymmetric | src/object/small_hypergate.rs:238-243 | in a ring of distinct builder entities, `j` draws a beam to `i` exactly when `i` draws one to `j` |
| SmallHypergates.RingHasNoLoops | src/object/small_hypergate.rs:238-243 | in a ring of at least three distinct builders, no builder draws a beam to itself and its two beams go to different builders |
| SmallHypergates.SpawnBuilders | src/object/small_hypergate.rs:188-248 | `GATE_BUILDER_COUNT` distinct fresh builder entities, linked into a ring by the neighbour indexing |
| SmallHypergates.SpawnHypergate | src/object/small_hypergate.rs:82-297 | one spawn per request: parent at the spawn cell and transform, a closed gate with no event sent, started now, aimed at the target, with six ring-linked builders, and the output at the target cell ten units before the target, started now; each spawn's entities are distinct and fresh |
| SmallHypergates.SpawnsAreDisjoint | src/object/small_hypergate.rs:82-297 | no entity belongs to two gate spawns of the same pass |
| SmallHypergates.SmallHypergateTimeSystem | src/object/small_hypergate.rs:299-313 | every gate becomes `TickGate` of itself, and the despawns are the gates `CLOSE_AFTER` or more past their start, in query order |
| SmallHypergates.TickNeverCloses | src/object/small_hypergate.rs:309-311 | the timer never resets the open flag, sets it exactly when `OPEN_AFTER` has elapsed, and changes nothing else |
| SmallHypergates.DespawnedGatesAreOpen | src/object/small_hypergate.rs:305-311 | a gate is despawned exactly when 1.5 base times have elapsed, and every despawned gate is open after that pass |
| SmallHypergates.OpenAfterPasses | src/object/small_hypergate.rs:309-311 | over any run of timer passes, a gate is open exactly when it started open or some pass came 0.5 base times or more after its start |
| SmallHypergates.SmallHypergateOutput | src/object/small_hypergate.rs:315-326 | an output marker is despawned exactly when three base times have elapsed since its start, in query order |
| SmallHypergates.OutputDespawnedIff | src/object/small_hypergate.rs:321-324 | the despawn list holds exactly the markers three base times or more past their start |
| SandClouds.TruncateToI32 | src/enviroment/sand_cloud.rs:82 | the float-to-`i32` cast truncates toward zero within the `i32` range and saturates outside it |
| SandClouds.NeedCount | src/enviroment/sand_cloud.rs:81-82 | the needed count is an `i32`, never negative for a non-negative density and radius, and zero for a zero density or radius |
| SandClouds.SandCloudUpdate | src/enviroment/sand_cloud.rs:63-103 | panics unless there is exactly one spawner, or when grains are missing and the radius is negative; otherwise despawns exactly the far grains, spawns `need - kept` grains when `kept < need` and none otherwise, so kept plus spawned is `max(kept, need)`, each spawned grain within `radius` of the spawner on every axis |
| SandClouds.ScaledSampleInCube | src/enviroment/sand_cloud.rs:92-96 | a sample in `[-1, 1]` on each axis, scaled by a non-negative radius, lies in `[-radius, radius]` on each axis |
| SandClouds.DespawnedIffFar | src/enviroment/sand_cloud.rs:73-79 | a grain is despawned exactly when it is farther than the radius from the spawner |
| SandClouds.KeptPlusDespawned | src/enviroment/sand_cloud.rs:71-79 | the grain count plus the number of despawned grains is the number of grains |
| SandClouds.NegativeRadiusClearsCloud | src/enviroment/sand_cloud.rs:74 | with a negative radius every grain is despawned |

## Left out

- Positions.Smooth: states the world value of the result only. Which cell and offset the grid library's `translation_to_grid` picks, and its rounding, belong to that library, which is not part of this model.
- The grid library's `grid_position_double` is modelled as exact `cell * edge + offset` in reals; its `f64`/`f32` rounding is not modelled.
- Floating point in general: every `f32`/`f64` value is a `real`, and casts such as `as_vec3` and `as f64` are the identity. No rounding, NaN or infinity is modelled.
- `i64` cell overflow: cells are unbounded integers.
- BigSpaceSync.PhysicsWorld.SyncTransforms: Bevy's change detection is modelled as one `changed` flag per body, set by any mutable access and cleared by the sync. Per-system change ticks are not modelled.
- BigSpaceSync.ChainRenderLagsOriginShift: global transform propagation between frames is not modelled. The lemma takes global translations equal to render translations as its premise, and the catch-up on the next frame is described, not proved.
- Quaternion math: rotations are opaque values that are copied. `transform.forward()` is an input field of each row, not computed from the rotation.
- The parented branch of `sync_transforms`: its body is commented out in the source, so it is a no-op here.
- The physics solver step and the rest of the physics plugin: plugin wiring only, or not part of this model.
- Gizmo drawing in `laser_beam_flying` and `portal_edges`: rendering only.
- SmallHypergates.SpawnHypergate: tweened animations, meshes, materials, the scene asset, the builders' `angle` and their sin/cos placement, and the output marker's facing are rendering and are left out. Entity ids come from a counter in spawn order, which stands in for Bevy's allocator.
- Entity hierarchy: `despawn_recursive` of a gate, a bullet or an output marker and `despawn` of a grain are all plain entity lists. The builders and the mesh a gate's recursive despawn also removes are not modelled. The gate's parent, which no pass ever despawns, is not modelled either. `SpawnHypergate` records none of the parent and child links made by `set_parent` and `add_child`.
- SandClouds.SandCloudUpdate: the random generator is replaced by `draw`, an arbitrary function returning samples in `[-1, 1]` on each axis that the radius scales. The first, discarded sample is left out.
- SandClouds.SandCloudUpdate: a panic returns `None` and drops the despawns already queued. The `i32` grain counter is unbounded, so overflow past 2^31 grains is not modelled.
- SandClouds.NeedCount: `powf(3.0)` is exact cubing and `PI` is the exact value of the `f32` constant. The product is not rounded to `f32`.
- Camera and input controllers, `thruster_flame.rs`, the example programs and the plugin registration modules: input, rendering and wiring, not game logic.
- Commands deferral and ECS scheduling: spawns and despawns are returned lists applied after the pass. Systems run in the order the model calls them.
