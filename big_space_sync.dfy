/** Synchronisation between the physics solver's frame and the render
    transforms, anchored on the one body that carries the physics-origin
    marker. Two passes run in order every frame: `FixOriginToZero` re-zeroes
    the solver frame on the origin, then `SyncTransforms` writes physics
    positions back into render translations. */
module BigSpaceSync {
  import opened Engine

  /** One rigid body as the two passes see it. */
  datatype Body = Body(
    position: Vec3,           // physics `Position`, in the solver's frame
    rotation: Quat,           // physics `Rotation`
    transform: Transform,     // render `Transform`
    globalTranslation: Vec3,  // translation of `GlobalTransform`, as last propagated
    hasParent: bool,          // has a `Parent` in the scene graph
    isOrigin: bool,           // carries the `PhysicsOrigin` marker
    changed: bool             // `Position` or `Rotation` changed since `SyncTransforms` last ran
  )

  /** Body `o` is the one and only physics origin. */
  ghost predicate IsSoleOrigin(bodies: seq<Body>, o: nat) {
    o < |bodies| && bodies[o].isOrigin &&
    forall j :: 0 <= j < |bodies| && j != o ==> !bodies[j].isOrigin
  }

  /** Exactly one body carries the physics-origin marker, which is what a
      `single()`/`single_mut()` query on the marker demands. */
  ghost predicate HasSingleOrigin(bodies: seq<Body>) {
    exists o :: IsSoleOrigin(bodies, o)
  }

  /** The origin query's `single()`: the index of the one origin body, or
      `None` (the query would panic) when there are none or several. */
  method SingleOrigin(bodies: seq<Body>) returns (r: Option<nat>)
    ensures r.Some? <==> HasSingleOrigin(bodies)
    ensures r.Some? ==> IsSoleOrigin(bodies, r.value)
  {
    // count is 0, 1, or 2 for "two or more"; first and other witness them
    var count, first, other := 0, 0, 0;
    var i := 0;
    while i < |bodies|
      invariant 0 <= i <= |bodies| && count <= 2
      invariant count == 0 ==> forall j :: 0 <= j < i ==> !bodies[j].isOrigin
      invariant count >= 1 ==> first < i && bodies[first].isOrigin
      invariant count == 1 ==> forall j :: 0 <= j < i && j != first ==> !bodies[j].isOrigin
      invariant count == 2 ==> first < other < i && bodies[other].isOrigin
    {
      if bodies[i].isOrigin {
        if count == 0 {
          first, count := i, 1;
        } else if count == 1 {
          other, count := i, 2;
        }
      }
      i := i + 1;
    }
    if count == 1 {
      assert IsSoleOrigin(bodies, first);
      r := Some(first);
    } else {
      r := None;
    }
  }

  /** A non-origin body after the solver frame moved by `shift`. */
  function Shifted(b: Body, shift: Vec3): Body {
    b.(position := Minus(b.position, shift), changed := true)
  }

  /** The origin body after re-zeroing: its offset moves into its render
      translation and its physics position becomes zero. */
  function Zeroed(b: Body): Body {
    b.(transform := b.transform.(translation := Plus(b.transform.translation, b.position)),
       position := Zero, changed := true)
  }

  /** All bodies after `fix_origin_to_zero` with origin `o`. Every body's
      `Position` is written through a mutable reference, so every body is
      marked changed. */
  function FixedToZero(bodies: seq<Body>, o: nat): seq<Body>
    requires o < |bodies|
  {
    seq(|bodies|, i requires 0 <= i < |bodies| =>
      if i == o then Zeroed(bodies[o]) else Shifted(bodies[i], bodies[o].position))
  }

  /** A body after `sync_transforms`, given the origin's global translation:
      a changed body without a parent moves its render translation by the
      gap between its physics position and its render position relative to
      the origin, and takes the physics rotation. A parented body is left as
      it is. The pass sees each change once. */
  function SyncedBody(b: Body, originGlobal: Vec3): Body {
    if b.changed && !b.hasParent then
      var physicsPos := Minus(b.globalTranslation, originGlobal);
      b.(transform := Transform(Plus(b.transform.translation, Minus(b.position, physicsPos)), b.rotation),
         changed := false)
    else
      b.(changed := false)
  }

  function Synced(bodies: seq<Body>, originGlobal: Vec3): seq<Body> {
    seq(|bodies|, i requires 0 <= i < |bodies| => SyncedBody(bodies[i], originGlobal))
  }

  /** The set of bodies the two passes update in place. */
  class PhysicsWorld {
    var bodies: seq<Body>

    constructor (bodies: seq<Body>)
      ensures this.bodies == bodies
    {
      this.bodies := bodies;
    }

    /** `fix_origin_to_zero`: moves every other body by minus the origin's
        physics position, adds that position to the origin's render
        translation, and zeroes it. Without exactly one origin the query
        panics; the model reports that and changes nothing. */
    method FixOriginToZero() returns (ok: bool)
      modifies this
      ensures ok <==> HasSingleOrigin(old(bodies))
      ensures !ok ==> bodies == old(bodies)
      ensures ok ==> forall o: nat :: IsSoleOrigin(old(bodies), o) ==> bodies == FixedToZero(old(bodies), o)
    {
      var origin := SingleOrigin(bodies);
      if origin.None? {
        return false;
      }
      var o := origin.value;
      ghost var before := bodies;
      var i := 0;
      while i < |bodies|
        invariant 0 <= i <= |bodies| == |before|
        invariant bodies[o] == before[o]
        invariant forall k :: 0 <= k < i && k != o ==> bodies[k] == Shifted(before[k], before[o].position)
        invariant forall k :: i <= k < |bodies| ==> bodies[k] == before[k]
      {
        if !bodies[i].isOrigin {
          bodies := bodies[i := Shifted(bodies[i], bodies[o].position)];
        }
        i := i + 1;
      }
      bodies := bodies[o := Zeroed(bodies[o])];
      assert bodies == FixedToZero(before, o);
      ok := true;
    }

    /** `sync_transforms`: updates every changed body's render transform from
        its physics state, reading the origin's global translation. Without
        exactly one origin the query panics; the model reports that and
        changes nothing. */
    method SyncTransforms() returns (ok: bool)
      modifies this
      ensures ok <==> HasSingleOrigin(old(bodies))
      ensures !ok ==> bodies == old(bodies)
      ensures ok ==> forall o: nat :: IsSoleOrigin(old(bodies), o) ==>
                       bodies == Synced(old(bodies), old(bodies)[o].globalTranslation)
    {
      var origin := SingleOrigin(bodies);
      if origin.None? {
        return false;
      }
      var originGlobal := bodies[origin.value].globalTranslation;
      ghost var before := bodies;
      var i := 0;
      while i < |bodies|
        invariant 0 <= i <= |bodies| == |before|
        invariant forall k :: 0 <= k < i ==> bodies[k] == SyncedBody(before[k], originGlobal)
        invariant forall k :: i <= k < |bodies| ==> bodies[k] == before[k]
      {
        var b := bodies[i];
        if b.changed {
          if b.hasParent {
            // re-parenting the physics pose into the parent's frame is not
            // done: the branch has no effect
            b := b.(changed := false);
          } else {
            var physicsPos := Minus(b.globalTranslation, originGlobal);
            var translation := Plus(b.transform.translation, Minus(b.position, physicsPos));
            b := b.(transform := Transform(translation, b.rotation), changed := false);
          }
        }
        bodies := bodies[i := b];
        i := i + 1;
      }
      assert bodies == Synced(before, originGlobal);
      ok := true;
    }

    /** The two passes chained in order, as the sync plugin schedules them.
        If the first panics the second does not run. */
    method PostUpdateSync() returns (ok: bool)
      modifies this
      ensures ok <==> HasSingleOrigin(old(bodies))
      ensures !ok ==> bodies == old(bodies)
      ensures ok ==> forall o: nat :: IsSoleOrigin(old(bodies), o) ==>
                       bodies == Synced(FixedToZero(old(bodies), o), old(bodies)[o].globalTranslation)
    {
      ghost var before := bodies;
      ok := FixOriginToZero();
      if ok {
        forall o: nat | IsSoleOrigin(before, o)
          ensures IsSoleOrigin(bodies, o) && bodies[o].globalTranslation == before[o].globalTranslation
        {
          FixedKeepsMarkers(before, o);
        }
        ok := SyncTransforms();
      }
    }
  }

  /** Re-zeroing leaves the origin marker, parents and global transforms
      where they were, so the origin is still the sole origin afterwards. */
  lemma FixedKeepsMarkers(bodies: seq<Body>, o: nat)
    requires IsSoleOrigin(bodies, o)
    ensures |FixedToZero(bodies, o)| == |bodies|
    ensures IsSoleOrigin(FixedToZero(bodies, o), o)
    ensures forall i :: 0 <= i < |bodies| ==>
              FixedToZero(bodies, o)[i].isOrigin == bodies[i].isOrigin &&
              FixedToZero(bodies, o)[i].hasParent == bodies[i].hasParent &&
              FixedToZero(bodies, o)[i].globalTranslation == bodies[i].globalTranslation &&
              FixedToZero(bodies, o)[i].rotation == bodies[i].rotation
  {
  }

  /** After re-zeroing, the origin sits at the solver's zero, and the offset
      it had is carried by its render translation instead: the sum of the
      two is unchanged. */
  lemma FixedOriginAtZero(bodies: seq<Body>, o: nat)
    requires IsSoleOrigin(bodies, o)
    ensures FixedToZero(bodies, o)[o].position == Zero
    ensures FixedToZero(bodies, o)[o].transform.translation ==
            Plus(bodies[o].transform.translation, bodies[o].position)
  {
  }

  /** Every other body moves by minus the origin's old physics position, and
      nothing else about it changes but the change mark. */
  lemma FixedShiftsOthers(bodies: seq<Body>, o: nat, i: nat)
    requires IsSoleOrigin(bodies, o) && i < |bodies| && i != o
    ensures FixedToZero(bodies, o)[i].position == Minus(bodies[i].position, bodies[o].position)
    ensures FixedToZero(bodies, o)[i].transform == bodies[i].transform
    ensures FixedToZero(bodies, o)[i].changed
  {
  }

  /** Re-zeroing preserves every body's position relative to every other
      body, the origin included: only the solver's frame moves. */
  lemma FixedPreservesRelativePositions(bodies: seq<Body>, o: nat, i: nat, j: nat)
    requires IsSoleOrigin(bodies, o) && i < |bodies| && j < |bodies|
    ensures Minus(FixedToZero(bodies, o)[i].position, FixedToZero(bodies, o)[j].position) ==
            Minus(bodies[i].position, bodies[j].position)
  {
    var r := FixedToZero(bodies, o);
    var p := bodies[o].position;
    assert i != o ==> r[i].position == Minus(bodies[i].position, p);
    assert j != o ==> r[j].position == Minus(bodies[j].position, p);
  }

  /** After the sync, a changed body without a parent has its render
      translation moved by the gap it read: its global translation as last
      propagated, moved by the same amount, sits at its physics position
      relative to the origin's global translation as last propagated. Its
      render rotation is its physics rotation. */
  lemma SyncAlignsRenderWithPhysics(bodies: seq<Body>, originGlobal: Vec3, i: nat)
    requires i < |bodies| && bodies[i].changed && !bodies[i].hasParent
    ensures
      var b, r := bodies[i], Synced(bodies, originGlobal)[i];
      Minus(Plus(b.globalTranslation, Minus(r.transform.translation, b.transform.translation)), originGlobal) ==
        b.position &&
      r.transform.rotation == b.rotation
  {
  }

  /** The sync never touches physics state, leaves bodies that did not
      change or have a parent exactly as they were (but for the change mark),
      and clears every change mark. */
  lemma SyncKeepsPhysicsAndSkipsOthers(bodies: seq<Body>, originGlobal: Vec3, i: nat)
    requires i < |bodies|
    ensures |Synced(bodies, originGlobal)| == |bodies|
    ensures Synced(bodies, originGlobal)[i].position == bodies[i].position
    ensures Synced(bodies, originGlobal)[i].rotation == bodies[i].rotation
    ensures !Synced(bodies, originGlobal)[i].changed
    ensures !bodies[i].changed || bodies[i].hasParent ==>
              Synced(bodies, originGlobal)[i] == bodies[i].(changed := false)
  {
  }

  /** Because re-zeroing marks every body changed, the chained passes
      update every body without a parent, whether or not it had changed
      before: its render rotation becomes its physics rotation and its render
      translation is moved so that its global translation as last
      propagated, moved by the same amount, sits at its re-zeroed physics
      position relative to the origin's global translation as last
      propagated. Parented bodies keep their render transform. */
  lemma ChainUpdatesEveryUnparentedBody(bodies: seq<Body>, o: nat, i: nat)
    requires IsSoleOrigin(bodies, o) && i < |bodies|
    ensures
      var mid := FixedToZero(bodies, o);
      var after := Synced(mid, bodies[o].globalTranslation);
      |after| == |bodies| &&
      (!bodies[i].hasParent ==>
        after[i].transform.rotation == bodies[i].rotation &&
        Minus(Plus(bodies[i].globalTranslation, Minus(after[i].transform.translation, mid[i].transform.translation)),
              bodies[o].globalTranslation) ==
          Minus(bodies[i].position, bodies[o].position)) &&
      (bodies[i].hasParent ==> after[i].transform == mid[i].transform)
  {
    var mid := FixedToZero(bodies, o);
    FixedKeepsMarkers(bodies, o);
    assert mid[i].changed;
    if !bodies[i].hasParent {
      SyncAlignsRenderWithPhysics(mid, bodies[o].globalTranslation, i);
      if i != o {
        FixedShiftsOthers(bodies, o, i);
      } else {
        FixedOriginAtZero(bodies, o);
        assert Minus(bodies[o].position, bodies[o].position) == Zero;
      }
    }
  }

  /** The render frame lags the physics frame by one re-zeroing. Take the
      origin and another body, both without a parent, whose global
      translations equal their render translations (propagation caught up).
      After both passes, the other body's render translation relative to
      the origin's is its physics position relative to the origin's, minus
      the origin's old physics position once more: re-zeroing moved the
      origin's render translation by that amount, but the sync still reads
      the origin's old global translation. The two agree exactly when the
      origin was already at the solver's zero, as it is on the next frame
      unless the solver moved it. */
  lemma ChainRenderLagsOriginShift(bodies: seq<Body>, o: nat, i: nat)
    requires IsSoleOrigin(bodies, o) && i < |bodies| && i != o
    requires !bodies[i].hasParent && !bodies[o].hasParent
    requires bodies[i].globalTranslation == bodies[i].transform.translation
    requires bodies[o].globalTranslation == bodies[o].transform.translation
    ensures
      var after := Synced(FixedToZero(bodies, o), bodies[o].globalTranslation);
      Minus(after[i].transform.translation, after[o].transform.translation) ==
        Minus(Minus(bodies[i].position, bodies[o].position), bodies[o].position)
    ensures
      var after := Synced(FixedToZero(bodies, o), bodies[o].globalTranslation);
      Minus(after[i].transform.translation, after[o].transform.translation) ==
        Minus(bodies[i].position, bodies[o].position)
      <==> bodies[o].position == Zero
  {
    var mid := FixedToZero(bodies, o);
    var g := bodies[o].globalTranslation;
    var after := Synced(mid, g);
    var p, q := bodies[o].position, bodies[i].position;
    FixedOriginAtZero(bodies, o);
    FixedShiftsOthers(bodies, o, i);
    FixedKeepsMarkers(bodies, o);
    assert after[o].transform.translation == Plus(bodies[o].transform.translation, p);
    assert after[i].transform.translation == Plus(g, Minus(q, p));
  }
}
