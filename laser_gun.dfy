/** Laser guns: a gun whose fire flag is set sends one bullet-spawn event
    and clears the flag. */
module LaserGuns {
  import opened Engine
  import opened LaserBeamBullets

  /** The gun component. */
  datatype LaserGun = LaserGun(
    needFire: bool, beamColor: Color, beamBrightness: real, beamSpeed: real, beamLifetime: real)

  /** One row of the gun query: the gun's transform, grid cell and gun.
      `forward` is the direction the transform's rotation faces
      (`transform.forward()`). */
  datatype ArmedEntity = ArmedEntity(transform: Transform, forward: Vec3, cell: Cell, gun: LaserGun)

  /** The event a firing gun sends. */
  function Shot(g: ArmedEntity): SpawnLaserBeamBullet {
    SpawnLaserBeamBullet(g.transform.translation, g.cell, g.forward,
                         g.gun.beamColor, g.gun.beamSpeed, g.gun.beamLifetime)
  }

  /** A gun after the pass: the flag is cleared if it was set. */
  function Disarmed(g: ArmedEntity): ArmedEntity {
    if g.gun.needFire then g.(gun := g.gun.(needFire := false)) else g
  }

  /** The events one pass sends over `guns`, in query order. */
  function Shots(guns: seq<ArmedEntity>): seq<SpawnLaserBeamBullet> {
    if guns == [] then []
    else
      var last := guns[|guns| - 1];
      Shots(guns[..|guns| - 1]) + (if last.gun.needFire then [Shot(last)] else [])
  }

  /** The number of guns whose fire flag is set. */
  function Armed(guns: seq<ArmedEntity>): nat {
    if guns == [] then 0
    else Armed(guns[..|guns| - 1]) + (if guns[|guns| - 1].gun.needFire then 1 else 0)
  }

  /** `fire_from_laser_gun`: sends one event per gun whose flag is set and
      clears the flag, in place. */
  method FireFromLaserGun(guns: array<ArmedEntity>) returns (events: seq<SpawnLaserBeamBullet>)
    modifies guns
    ensures forall i :: 0 <= i < guns.Length ==> guns[i] == Disarmed(old(guns[i]))
    ensures events == Shots(old(guns[..]))
  {
    events := [];
    var i := 0;
    while i < guns.Length
      invariant 0 <= i <= guns.Length
      invariant forall k :: 0 <= k < i ==> guns[k] == Disarmed(old(guns[k]))
      invariant forall k :: i <= k < guns.Length ==> guns[k] == old(guns[k])
      invariant events == Shots(old(guns[..])[..i])
    {
      if guns[i].gun.needFire {
        var g := guns[i];
        events := events + [SpawnLaserBeamBullet(g.transform.translation, g.cell, g.forward,
                                                 g.gun.beamColor, g.gun.beamSpeed, g.gun.beamLifetime)];
        guns[i] := g.(gun := g.gun.(needFire := false));
      }
      assert old(guns[..])[..i + 1][..i] == old(guns[..])[..i];
      i := i + 1;
    }
    assert old(guns[..])[..guns.Length] == old(guns[..]);
  }

  /** After the pass no gun wants to fire, and guns that did not want to
      fire are exactly as they were. */
  lemma DisarmedClearsFlag(g: ArmedEntity)
    ensures !Disarmed(g).gun.needFire
    ensures !g.gun.needFire ==> Disarmed(g) == g
    ensures Disarmed(g).transform == g.transform && Disarmed(g).cell == g.cell
  {
  }

  /** One event per gun whose flag was set. */
  lemma {:induction false} ShotsCount(guns: seq<ArmedEntity>)
    ensures |Shots(guns)| == Armed(guns)
  {
    if guns != [] {
      ShotsCount(guns[..|guns| - 1]);
    }
  }

  /** Guns fire in query order: the gun at index `i`, if armed, sends the
      event that follows those of the armed guns before it, and that event
      copies its translation, cell, facing, beam colour, speed and
      lifetime. */
  lemma {:induction false} ShotAt(guns: seq<ArmedEntity>, i: nat)
    requires i < |guns| && guns[i].gun.needFire
    ensures Armed(guns[..i]) < |Shots(guns)|
    ensures Shots(guns)[Armed(guns[..i])] == Shot(guns[i])
    ensures Shot(guns[i]).position == guns[i].transform.translation && Shot(guns[i]).cell == guns[i].cell
    ensures Shot(guns[i]).direction == guns[i].forward && Shot(guns[i]).color == guns[i].gun.beamColor
    ensures Shot(guns[i]).speed == guns[i].gun.beamSpeed && Shot(guns[i]).lifetime == guns[i].gun.beamLifetime
  {
    var n := |guns| - 1;
    ShotsCount(guns[..i]);
    if i == n {
      assert guns[..n] == guns[..i];
    } else {
      assert guns[..n][..i] == guns[..i];
      ShotAt(guns[..n], i);
    }
  }

  /** Running the pass a second time sends nothing. */
  lemma {:induction false} SecondPassIsSilent(guns: seq<ArmedEntity>)
    ensures Shots(seq(|guns|, i requires 0 <= i < |guns| => Disarmed(guns[i]))) == []
  {
    if guns != [] {
      var n := |guns| - 1;
      var after := seq(|guns|, i requires 0 <= i < |guns| => Disarmed(guns[i]));
      assert after[..n] == seq(n, i requires 0 <= i < n => Disarmed(guns[..n][i]));
      SecondPassIsSilent(guns[..n]);
    }
  }
}
