/** Laser beam bullets: spawned from fire events, they fly along their
    facing direction and are despawned when their lifetime runs out. */
module LaserBeamBullets {
  import opened Engine

  /** The event a gun sends to request a bullet. */
  datatype SpawnLaserBeamBullet = SpawnLaserBeamBullet(
    position: Vec3, cell: Cell, direction: Vec3, color: Color, speed: real, lifetime: real)

  /** The bullet component. */
  datatype LaserBeamBullet = LaserBeamBullet(
    color: Color, speed: real, lifetime: real, maxLifetime: real,
    prevGlobalTransform: Option<Transform>)

  /** One row of the flying query: a bullet entity with its transforms.
      `forward` is the direction the transform's rotation faces
      (`transform.forward()`), which the pass reads but never changes. */
  datatype FlyingBullet = FlyingBullet(
    entity: Entity, bullet: LaserBeamBullet, transform: Transform, forward: Vec3,
    globalTransform: Transform)

  /** The entity a spawn command creates: the bullet, its grid cell, a point
      light of the bullet's colour at the event position, facing along the
      event direction. */
  datatype SpawnedBullet = SpawnedBullet(
    bullet: LaserBeamBullet, cell: Cell, translation: Vec3, facing: Vec3,
    lightColor: Color, lightIntensity: real)

  /** The bullet's lifetime is at most its initial lifetime. */
  predicate WellTimed(b: LaserBeamBullet) {
    b.lifetime <= b.maxLifetime
  }

  /** The bullet runs out during a tick of length `dt`. */
  predicate Expires(b: FlyingBullet, dt: real) {
    b.bullet.lifetime - dt <= 0.0
  }

  /** One tick of `laser_beam_flying` for one bullet. */
  function Tick(b: FlyingBullet, dt: real): FlyingBullet {
    var lifetime := b.bullet.lifetime - dt;
    if lifetime <= 0.0 then
      b.(bullet := b.bullet.(lifetime := lifetime))
    else
      var step := Scale(Scale(b.forward, b.bullet.speed), dt);
      b.(bullet := b.bullet.(lifetime := lifetime, prevGlobalTransform := Some(b.globalTransform)),
         transform := b.transform.(translation := Plus(b.transform.translation, step)))
  }

  /** The despawn commands one tick issues, in query order. */
  function Despawns(bullets: seq<FlyingBullet>, dt: real): seq<Entity> {
    if bullets == [] then []
    else
      var last := bullets[|bullets| - 1];
      Despawns(bullets[..|bullets| - 1], dt) + (if Expires(last, dt) then [last.entity] else [])
  }

  /** `laser_beam_flying`: ticks every bullet in place and returns the
      entities to despawn. */
  method LaserBeamFlying(bullets: array<FlyingBullet>, dt: real) returns (despawn: seq<Entity>)
    modifies bullets
    ensures forall i :: 0 <= i < bullets.Length ==> bullets[i] == Tick(old(bullets[i]), dt)
    ensures despawn == Despawns(old(bullets[..]), dt)
  {
    despawn := [];
    var i := 0;
    while i < bullets.Length
      invariant 0 <= i <= bullets.Length
      invariant forall k :: 0 <= k < i ==> bullets[k] == Tick(old(bullets[k]), dt)
      invariant forall k :: i <= k < bullets.Length ==> bullets[k] == old(bullets[k])
      invariant despawn == Despawns(old(bullets[..])[..i], dt)
    {
      var b := bullets[i];
      var lifetime := b.bullet.lifetime - dt;
      b := b.(bullet := b.bullet.(lifetime := lifetime));
      if lifetime <= 0.0 {
        despawn := despawn + [b.entity];
      } else {
        var frw := b.forward;
        b := b.(transform := b.transform.(translation :=
                  Plus(b.transform.translation, Scale(Scale(frw, b.bullet.speed), dt))));
        b := b.(bullet := b.bullet.(prevGlobalTransform := Some(b.globalTransform)));
      }
      bullets[i] := b;
      assert old(bullets[..])[..i + 1][..i] == old(bullets[..])[..i];
      i := i + 1;
    }
    assert old(bullets[..])[..bullets.Length] == old(bullets[..]);
  }

  /** The bullet a spawn event creates. */
  function NewBullet(e: SpawnLaserBeamBullet): SpawnedBullet {
    SpawnedBullet(LaserBeamBullet(e.color, e.speed, e.lifetime, e.lifetime, None),
                  e.cell, e.position, e.direction, e.color, 1.0)
  }

  /** `spawn_laser_beam_bullet`: one spawn command per event, in order. Each
      bullet starts with its full lifetime and no previous transform, and
      carries the event's cell, colour and speed. */
  method SpawnLaserBeamBullets(events: seq<SpawnLaserBeamBullet>) returns (spawned: seq<SpawnedBullet>)
    ensures |spawned| == |events|
    ensures forall i :: 0 <= i < |events| ==>
              var s, e := spawned[i], events[i];
              s.bullet.lifetime == e.lifetime && s.bullet.maxLifetime == e.lifetime &&
              s.bullet.prevGlobalTransform == None && WellTimed(s.bullet) &&
              s.cell == e.cell && s.bullet.color == e.color && s.bullet.speed == e.speed &&
              s.translation == e.position && s.facing == e.direction && s.lightColor == e.color
  {
    spawned := [];
    for i := 0 to |events|
      invariant |spawned| == i
      invariant forall k :: 0 <= k < i ==> spawned[k] == NewBullet(events[k])
    {
      spawned := spawned + [NewBullet(events[i])];
    }
  }

  /** A bullet is despawned in a tick exactly when its decremented lifetime
      is at most zero. */
  lemma {:induction false} DespawnedIffExpired(bullets: seq<FlyingBullet>, dt: real, e: Entity)
    ensures e in Despawns(bullets, dt) <==>
            exists i :: 0 <= i < |bullets| && bullets[i].entity == e && Expires(bullets[i], dt)
  {
    if bullets != [] {
      var n := |bullets| - 1;
      DespawnedIffExpired(bullets[..n], dt, e);
      if exists i :: 0 <= i < n && bullets[..n][i].entity == e && Expires(bullets[..n][i], dt) {
        var i :| 0 <= i < n && bullets[..n][i].entity == e && Expires(bullets[..n][i], dt);
        assert bullets[i] == bullets[..n][i];
      }
      if exists i :: 0 <= i < |bullets| && bullets[i].entity == e && Expires(bullets[i], dt) {
        var i :| 0 <= i < |bullets| && bullets[i].entity == e && Expires(bullets[i], dt);
        if i < n {
          assert bullets[..n][i] == bullets[i];
        }
      }
    }
  }

  /** A tick takes exactly `dt` off every lifetime. A bullet that expires
      keeps its translation and previous transform; a surviving bullet moves
      `speed * dt` along its facing direction and remembers the global
      transform it had. Colour, speed and initial lifetime never change. */
  lemma TickUpdate(b: FlyingBullet, dt: real)
    ensures Tick(b, dt).bullet.lifetime == b.bullet.lifetime - dt
    ensures Tick(b, dt).entity == b.entity && Tick(b, dt).forward == b.forward
    ensures Tick(b, dt).bullet.color == b.bullet.color && Tick(b, dt).bullet.speed == b.bullet.speed
    ensures Tick(b, dt).bullet.maxLifetime == b.bullet.maxLifetime
    ensures Expires(b, dt) ==>
              Tick(b, dt).transform == b.transform &&
              Tick(b, dt).bullet.prevGlobalTransform == b.bullet.prevGlobalTransform
    ensures !Expires(b, dt) ==>
              Tick(b, dt).transform.translation ==
                Plus(b.transform.translation, Scale(b.forward, b.bullet.speed * dt)) &&
              Tick(b, dt).transform.rotation == b.transform.rotation &&
              Tick(b, dt).bullet.prevGlobalTransform == Some(b.globalTransform)
  {
    var f := b.forward;
    var k := b.bullet.speed;
    assert f.x * k * dt == f.x * (k * dt);
    assert f.y * k * dt == f.y * (k * dt);
    assert f.z * k * dt == f.z * (k * dt);
  }

  /** With a non-negative tick, every bullet that has not been despawned has
      a lifetime in `(0, maxLifetime]`: spawning starts at the maximum and a
      tick never adds time. */
  lemma TickKeepsLifetimeInBounds(b: FlyingBullet, dt: real)
    requires WellTimed(b.bullet) && dt >= 0.0
    ensures WellTimed(Tick(b, dt).bullet)
    ensures !Expires(b, dt) ==> 0.0 < Tick(b, dt).bullet.lifetime <= Tick(b, dt).bullet.maxLifetime
  {
  }
}
