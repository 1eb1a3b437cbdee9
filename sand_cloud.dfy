/** Sand clouds: each pass despawns the grains that drifted out of the
    spawner's sphere and tops the cloud up with new grains scattered in the
    cube around the spawner. */
module SandClouds {
  import opened Engine

  const I32_MIN: int := -0x8000_0000
  const I32_MAX: int := 0x7fff_ffff
  /** `std::f32::consts::PI`, the `f32` nearest to pi. */
  const PI_F32: real := 3.1415927410125732421875

  /** The spawner component. `checkDistancePatience` is carried but never
      read by the pass. */
  datatype SandCloudSpawner = SandCloudSpawner(density: real, radius: real, checkDistancePatience: real)

  /** One row of the spawner query: the spawner's global translation and its
      component. */
  datatype SpawnerRow = SpawnerRow(entity: Entity, translation: Vec3, spawner: SandCloudSpawner)

  /** One row of the grain query: a grain's global translation. */
  datatype Grain = Grain(entity: Entity, translation: Vec3)

  /** What one pass commands: the grains to despawn, in query order, and the
      translations of the grains to spawn. */
  datatype Outcome = Outcome(despawn: seq<Entity>, spawn: seq<Vec3>)

  /** The grain at `offset` from the spawner is farther than `radius`:
      `length > radius`, decided on squares, as a length is never negative. */
  predicate Far(offset: Vec3, radius: real) {
    radius < 0.0 || SquaredLength(offset) > radius * radius
  }

  /** The grains a pass despawns around `center`, in query order. */
  function FarGrains(grains: seq<Grain>, center: Vec3, radius: real): seq<Entity> {
    if grains == [] then []
    else
      var last := grains[|grains| - 1];
      FarGrains(grains[..|grains| - 1], center, radius) +
        (if Far(Minus(last.translation, center), radius) then [last.entity] else [])
  }

  /** The number of grains a pass keeps around `center`. */
  function KeptCount(grains: seq<Grain>, center: Vec3, radius: real): nat {
    if grains == [] then 0
    else
      var last := grains[|grains| - 1];
      KeptCount(grains[..|grains| - 1], center, radius) +
        (if Far(Minus(last.translation, center), radius) then 0 else 1)
  }

  /** Rust's `as i32` on a float: truncation toward zero, saturating at the
      ends of the `i32` range. */
  function TruncateToI32(x: real): (n: int)
    ensures I32_MIN <= n <= I32_MAX
    ensures I32_MIN as real < x < I32_MAX as real + 1.0 ==>
              (0.0 <= x ==> n as real <= x < n as real + 1.0) &&
              (x < 0.0 ==> n as real - 1.0 < x <= n as real)
    ensures x <= I32_MIN as real ==> n == I32_MIN
    ensures I32_MAX as real + 1.0 <= x ==> n == I32_MAX
  {
    if x >= I32_MAX as real + 1.0 then I32_MAX
    else if x <= I32_MIN as real then I32_MIN
    else if x >= 0.0 then x.Floor
    else -((-x).Floor)
  }

  /** The number of grains the cloud should hold: the density times
      `3/4 * PI * radius^3` (the factor is 3/4 as written, where a ball's
      volume has 4/3), truncated to `i32`. */
  function NeedCount(density: real, radius: real): (n: int)
    ensures I32_MIN <= n <= I32_MAX
    ensures density >= 0.0 && radius >= 0.0 ==> n >= 0
    ensures density == 0.0 || radius == 0.0 ==> n == 0
  {
    var volume := 3.0 / 4.0 * PI_F32 * (radius * radius * radius);
    NonNegativeVolume(radius);
    NonNegativeProduct(density, volume);
    TruncateToI32(density * volume)
  }

  lemma NonNegativeVolume(radius: real)
    ensures radius >= 0.0 ==> 3.0 / 4.0 * PI_F32 * (radius * radius * radius) >= 0.0
    ensures radius == 0.0 ==> 3.0 / 4.0 * PI_F32 * (radius * radius * radius) == 0.0
  {
    if radius >= 0.0 {
      NonNegativeProduct(radius, radius);
      NonNegativeProduct(radius * radius, radius);
    }
  }

  lemma NonNegativeProduct(a: real, b: real)
    ensures a >= 0.0 && b >= 0.0 ==> a * b >= 0.0
    ensures a == 0.0 || b == 0.0 ==> a * b == 0.0
  {
  }

  /** Each component of `v` lies in `[-1, 1]`. */
  predicate InUnitCube(v: Vec3) {
    -1.0 <= v.x <= 1.0 && -1.0 <= v.y <= 1.0 && -1.0 <= v.z <= 1.0
  }

  /** Each component of `v` lies in `[-radius, radius]`. */
  predicate InCube(v: Vec3, radius: real) {
    -radius <= v.x <= radius && -radius <= v.y <= radius && -radius <= v.z <= radius
  }

  /** `sand_cloud_update`. The pass needs exactly one spawner (`single_mut`
      panics otherwise). It despawns every grain farther than the radius
      from the spawner, counts the rest, and spawns the shortfall up to
      `NeedCount`. Grain `k` is placed at the spawner plus `radius` times
      `draw(k)`, where `draw(k)` stands for the three uniform samples the
      random generator returns; sampling from an empty range panics, so a
      negative radius panics when grains are to be spawned. `None` is a
      panic. */
  method SandCloudUpdate(grains: seq<Grain>, spawners: seq<SpawnerRow>, draw: nat -> Vec3)
    returns (r: Option<Outcome>)
    requires forall k: nat :: InUnitCube(draw(k))
    ensures |spawners| == 1 ==>
              var s := spawners[0];
              var kept := KeptCount(grains, s.translation, s.spawner.radius);
              var need := NeedCount(s.spawner.density, s.spawner.radius);
              (r.None? <==> kept < need && s.spawner.radius < 0.0) &&
              (r.Some? ==>
                 r.value.despawn == FarGrains(grains, s.translation, s.spawner.radius) &&
                 |r.value.spawn| == (if kept < need then need - kept else 0) &&
                 kept + |r.value.spawn| == (if kept < need then need else kept) &&
                 forall k :: 0 <= k < |r.value.spawn| ==>
                   InCube(Minus(r.value.spawn[k], s.translation), s.spawner.radius))
    ensures |spawners| != 1 ==> r.None?
  {
    if |spawners| != 1 {
      return None;
    }
    var s := spawners[0];
    var radius := s.spawner.radius;
    var despawn := [];
    var grainCount := 0;
    for i := 0 to |grains|
      invariant despawn == FarGrains(grains[..i], s.translation, radius)
      invariant grainCount == KeptCount(grains[..i], s.translation, radius)
    {
      var offset := Minus(grains[i].translation, s.translation);
      if Far(offset, radius) {
        despawn := despawn + [grains[i].entity];
      } else {
        grainCount := grainCount + 1;
      }
      assert grains[..i + 1][..i] == grains[..i];
    }
    assert grains[..|grains|] == grains;
    var needCount := NeedCount(s.spawner.density, radius);
    var spawn := [];
    if grainCount < needCount {
      if radius < 0.0 {
        return None;
      }
      for k := 0 to needCount - grainCount
        invariant |spawn| == k
        invariant forall m :: 0 <= m < k ==> InCube(Minus(spawn[m], s.translation), radius)
      {
        var p := Plus(s.translation, Scale(draw(k), radius));
        ScaledSampleInCube(draw(k), radius);
        assert Minus(p, s.translation) == Scale(draw(k), radius);
        spawn := spawn + [p];
      }
    }
    return Some(Outcome(despawn, spawn));
  }

  /** A unit sample scaled by a non-negative radius lies in the cube of that
      radius. */
  lemma ScaledSampleInCube(u: Vec3, radius: real)
    requires InUnitCube(u) && radius >= 0.0
    ensures InCube(Scale(u, radius), radius)
  {
    var v := Scale(u, radius);
    ScaledUnitInRange(u.x, radius, v.x);
    ScaledUnitInRange(u.y, radius, v.y);
    ScaledUnitInRange(u.z, radius, v.z);
  }

  lemma ScaledUnitInRange(u: real, radius: real, p: real)
    requires -1.0 <= u <= 1.0 && radius >= 0.0 && p == u * radius
    ensures -radius <= p <= radius
  {
    if u >= 0.0 {
      assert u * radius <= 1.0 * radius;
    } else {
      assert (-u) * radius <= 1.0 * radius;
    }
  }

  /** A grain is despawned exactly when it is farther than the radius. */
  lemma {:induction false} DespawnedIffFar(grains: seq<Grain>, center: Vec3, radius: real, e: Entity)
    ensures e in FarGrains(grains, center, radius) <==>
              exists i :: 0 <= i < |grains| && grains[i].entity == e && Far(Minus(grains[i].translation, center), radius)
  {
    if grains != [] {
      var n := |grains| - 1;
      DespawnedIffFar(grains[..n], center, radius, e);
      if exists i :: 0 <= i < n && grains[..n][i].entity == e && Far(Minus(grains[..n][i].translation, center), radius) {
        var i :| 0 <= i < n && grains[..n][i].entity == e && Far(Minus(grains[..n][i].translation, center), radius);
        assert grains[i] == grains[..n][i];
      }
      if exists i :: 0 <= i < |grains| && grains[i].entity == e && Far(Minus(grains[i].translation, center), radius) {
        var i :| 0 <= i < |grains| && grains[i].entity == e && Far(Minus(grains[i].translation, center), radius);
        if i < n {
          assert grains[..n][i] == grains[i];
        }
      }
    }
  }

  /** Every grain is either despawned or counted: the count is the number of
      grains minus the despawned ones. */
  lemma {:induction false} KeptPlusDespawned(grains: seq<Grain>, center: Vec3, radius: real)
    ensures KeptCount(grains, center, radius) + |FarGrains(grains, center, radius)| == |grains|
  {
    if grains != [] {
      KeptPlusDespawned(grains[..|grains| - 1], center, radius);
    }
  }

  /** With a negative radius every grain is despawned. */
  lemma {:induction false} NegativeRadiusClearsCloud(grains: seq<Grain>, center: Vec3, radius: real)
    requires radius < 0.0
    ensures KeptCount(grains, center, radius) == 0
  {
    if grains != [] {
      NegativeRadiusClearsCloud(grains[..|grains| - 1], center, radius);
    }
  }
}
