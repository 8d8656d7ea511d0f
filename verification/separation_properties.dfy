/** Properties of the narrow phase: when a separation step acts, what it
    records, which bodies move and by how much, and what the velocity
    exchange does for equal masses. */
module SeparationProperties {
  import opened Numerics
  import opened Points
  import opened IsoArcade

  /** The step runs to the end: the bodies overlap, at least one can move,
      the overlap is admitted, and nobody asked for the overlap only. */
  predicate FullyResolved(b1: Body, b2: Body, a: Axis, overlapOnly: bool, bias: real) {
    && Intersects(b1, b2)
    && !(b1.props.immovable && b2.props.immovable)
    && Admitted(b1, b2, a, bias)
    && !overlapOnly
    && !b1.props.customSeparate.Get(a)
    && !b2.props.customSeparate.Get(a)
  }

  /** The signed overlap an admitted step resolves: positive when the first
      body leads along `a`, negative when it trails. */
  function SignedOverlap(b1: Body, b2: Body, a: Axis): real {
    if b1.props.delta.Get(a) > b2.props.delta.Get(a) then b1.Front(a) - b2.position.Get(a)
    else b1.position.Get(a) - b2.Front(a)
  }

  lemma OverlapOnAxis(b1: Body, b2: Body, a: Axis)
    requires Intersects(b1, b2)
    ensures OverlapOn(b1, b2, a)
  {
    match a
    case X =>
    case Y =>
    case Z =>
  }

  /** The kept overlap of an admitted step, and the contact it produces. */
  lemma AdmittedContact(b1: Body, b2: Body, a: Axis, bias: real)
    requires Intersects(b1, b2) && Admitted(b1, b2, a, bias)
    ensures var c := Detect(b1, b2, a, bias);
            && c.overlap == SignedOverlap(b1, b2, a) && c.overlap != 0.0
            && (b1.props.delta.Get(a) > b2.props.delta.Get(a) ==>
                  c.overlap > 0.0 && c.b1.touching.Get(PlusFace(a)) && c.b2.touching.Get(MinusFace(a)))
            && (b1.props.delta.Get(a) < b2.props.delta.Get(a) ==>
                  c.overlap < 0.0 && c.b1.touching.Get(MinusFace(a)) && c.b2.touching.Get(PlusFace(a)))
            && !c.b1.touchingNone && !c.b2.touchingNone
            && c.b1.embedded == b1.embedded && c.b2.embedded == b2.embedded
  {
    OverlapOnAxis(b1, b2, a);
  }

  // ---------------------------------------------------------------------
  // When the step acts
  // ---------------------------------------------------------------------

  /** Between overlapping bodies that are not both immovable, a step
      separates exactly when it is admitted. */
  lemma SeparatesIffAdmitted(b1: Body, b2: Body, a: Axis, overlapOnly: bool, bias: real, sqrt: real -> real)
    requires b1.props.mass > 0.0 && b2.props.mass > 0.0
    requires Intersects(b1, b2) && !(b1.props.immovable && b2.props.immovable)
    ensures SeparateAxis(b1, b2, a, overlapOnly, bias, sqrt).separated <==> Admitted(b1, b2, a, bias)
  {
    DetectAdmits(b1, b2, a, bias);
  }

  /** Overlapping bodies that do not move along `a` are both marked
      embedded; nothing else changes and the step reports no separation. */
  lemma StillBodiesAreEmbedded(b1: Body, b2: Body, a: Axis, overlapOnly: bool, bias: real, sqrt: real -> real)
    requires b1.props.mass > 0.0 && b2.props.mass > 0.0
    requires Intersects(b1, b2) && !(b1.props.immovable && b2.props.immovable)
    requires b1.props.delta.Get(a) == 0.0 && b2.props.delta.Get(a) == 0.0
    ensures SeparateAxis(b1, b2, a, overlapOnly, bias, sqrt)
         == Outcome(b1.(embedded := true), b2.(embedded := true), false)
  {
  }

  /** An overlap beyond the cap, or a disabled face, is discarded: the
      bodies come back as they were (apart from `embedded`) and the step
      reports no separation. */
  lemma DiscardedOverlapChangesNothing(b1: Body, b2: Body, a: Axis, overlapOnly: bool, bias: real, sqrt: real -> real)
    requires b1.props.mass > 0.0 && b2.props.mass > 0.0
    requires !Admitted(b1, b2, a, bias)
    ensures var o := SeparateAxis(b1, b2, a, overlapOnly, bias, sqrt);
            && !o.separated
            && o.b1 == b1.(embedded := o.b1.embedded) && o.b2 == b2.(embedded := o.b2.embedded)
  {
    if !(b1.props.immovable && b2.props.immovable) && Intersects(b1, b2) {
      DetectAdmits(b1, b2, a, bias);
    }
  }

  /** A kept overlap sets the touching flags of the two faces that met. */
  lemma KeptOverlapTouches(b1: Body, b2: Body, a: Axis, overlapOnly: bool, bias: real, sqrt: real -> real)
    requires b1.props.mass > 0.0 && b2.props.mass > 0.0
    requires Intersects(b1, b2) && !(b1.props.immovable && b2.props.immovable) && Admitted(b1, b2, a, bias)
    ensures var o := SeparateAxis(b1, b2, a, overlapOnly, bias, sqrt);
            && o.separated && !o.b1.touchingNone && !o.b2.touchingNone
            && (b1.props.delta.Get(a) > b2.props.delta.Get(a) ==>
                  o.b1.touching.Get(PlusFace(a)) && o.b2.touching.Get(MinusFace(a)))
            && (b1.props.delta.Get(a) < b2.props.delta.Get(a) ==>
                  o.b1.touching.Get(MinusFace(a)) && o.b2.touching.Get(PlusFace(a)))
  {
    AdmittedContact(b1, b2, a, bias);
  }

  /** With `overlapOnly`, or when either body opts out of separating on
      this axis, a kept overlap is recorded on both bodies but no position
      or velocity changes. */
  lemma OverlapOnlyRecords(b1: Body, b2: Body, a: Axis, overlapOnly: bool, bias: real, sqrt: real -> real)
    requires b1.props.mass > 0.0 && b2.props.mass > 0.0
    requires Intersects(b1, b2) && !(b1.props.immovable && b2.props.immovable) && Admitted(b1, b2, a, bias)
    requires overlapOnly || b1.props.customSeparate.Get(a) || b2.props.customSeparate.Get(a)
    ensures var o := SeparateAxis(b1, b2, a, overlapOnly, bias, sqrt);
            && o.separated
            && o.b1.position == b1.position && o.b1.velocity == b1.velocity
            && o.b2.position == b2.position && o.b2.velocity == b2.velocity
            && o.b1.overlap.Get(a) == SignedOverlap(b1, b2, a)
            && o.b2.overlap.Get(a) == SignedOverlap(b1, b2, a)
  {
    AdmittedContact(b1, b2, a, bias);
  }

  // ---------------------------------------------------------------------
  // How a full resolution moves the bodies
  // ---------------------------------------------------------------------

  /** The contact of a fully resolved step, and the resolution applied to it. */
  lemma ResolvedOutcome(b1: Body, b2: Body, a: Axis, overlapOnly: bool, bias: real, sqrt: real -> real)
    returns (c: Contact)
    requires b1.props.mass > 0.0 && b2.props.mass > 0.0
    requires FullyResolved(b1, b2, a, overlapOnly, bias)
    ensures c == Detect(b1, b2, a, bias)
    ensures c.overlap == SignedOverlap(b1, b2, a) && c.overlap != 0.0
    ensures c.b1.position == b1.position && c.b1.velocity == b1.velocity && SameBody(b1, c.b1)
    ensures c.b2.position == b2.position && c.b2.velocity == b2.velocity && SameBody(b2, c.b2)
    ensures SeparateAxis(b1, b2, a, overlapOnly, bias, sqrt)
         == Resolve(RecordOverlap(c.b1, a, c.overlap), RecordOverlap(c.b2, a, c.overlap), a, c.overlap, sqrt)
  {
    c := Detect(b1, b2, a, bias);
    AdmittedContact(b1, b2, a, bias);
  }

  /** Two movable bodies each take half of the overlap, in opposite
      directions, so the sum of their coordinates on `a` is preserved. */
  lemma MovableBodiesShareOverlap(b1: Body, b2: Body, a: Axis, overlapOnly: bool, bias: real, sqrt: real -> real)
    requires b1.props.mass > 0.0 && b2.props.mass > 0.0
    requires FullyResolved(b1, b2, a, overlapOnly, bias)
    requires !b1.props.immovable && !b2.props.immovable
    ensures var o := SeparateAxis(b1, b2, a, overlapOnly, bias, sqrt);
            && o.b1.position.Get(a) == b1.position.Get(a) - SignedOverlap(b1, b2, a) * 0.5
            && o.b2.position.Get(a) == b2.position.Get(a) + SignedOverlap(b1, b2, a) * 0.5
            && o.b1.position.Get(a) + o.b2.position.Get(a) == b1.position.Get(a) + b2.position.Get(a)
  {
    var c := ResolvedOutcome(b1, b2, a, overlapOnly, bias, sqrt);
  }

  /** A single movable body takes the whole overlap and rebounds: its new
      velocity on `a` is the other's minus its own scaled by its bounce. */
  lemma MovableBodyTakesOverlap(b1: Body, b2: Body, a: Axis, overlapOnly: bool, bias: real, sqrt: real -> real)
    requires b1.props.mass > 0.0 && b2.props.mass > 0.0
    requires FullyResolved(b1, b2, a, overlapOnly, bias)
    requires !b1.props.immovable && b2.props.immovable
    ensures var o := SeparateAxis(b1, b2, a, overlapOnly, bias, sqrt);
            && o.b1.position.Get(a) == b1.position.Get(a) - SignedOverlap(b1, b2, a)
            && o.b1.velocity.Get(a) == b2.velocity.Get(a) - b1.velocity.Get(a) * b1.props.bounce.Get(a)
            && o.b2.position == b2.position && o.b2.velocity == b2.velocity
  {
    var c := ResolvedOutcome(b1, b2, a, overlapOnly, bias, sqrt);
  }

  /** After a full resolution the two bodies' faces meet on `a`, so they no
      longer intersect. */
  lemma ResolvedBodiesApart(b1: Body, b2: Body, a: Axis, overlapOnly: bool, bias: real, sqrt: real -> real)
    requires b1.props.mass > 0.0 && b2.props.mass > 0.0
    requires FullyResolved(b1, b2, a, overlapOnly, bias)
    ensures !Intersects(SeparateAxis(b1, b2, a, overlapOnly, bias, sqrt).b1,
                        SeparateAxis(b1, b2, a, overlapOnly, bias, sqrt).b2)
  {
    var c := ResolvedOutcome(b1, b2, a, overlapOnly, bias, sqrt);
    var o := SeparateAxis(b1, b2, a, overlapOnly, bias, sqrt);
    var ov := c.overlap;
    if b1.props.delta.Get(a) > b2.props.delta.Get(a) {
      assert o.b1.Front(a) == o.b2.position.Get(a);
      FacesMeetDoNotIntersect(o.b1, o.b2, a);
    } else {
      assert o.b1.position.Get(a) == o.b2.Front(a);
      FacesMeetDoNotIntersect(o.b1, o.b2, a);
    }
  }

  // ---------------------------------------------------------------------
  // The velocity exchange
  // ---------------------------------------------------------------------

  /** With equal masses the exchange hands each body the other's velocity
      (through the square root of its square and the sign factor). */
  lemma EqualMassExchange(b1: Body, b2: Body, a: Axis, ov: real, sqrt: real -> real)
    requires b1.props.mass > 0.0 && b1.props.mass == b2.props.mass
    requires IsSqrt(sqrt)
    ensures var o := Exchange(b1, b2, a, ov, sqrt);
            var v1 := b1.velocity.Get(a);
            var v2 := b2.velocity.Get(a);
            && o.b1.velocity.Get(a) == (v1 + v2) * 0.5 + (v2 - (v1 + v2) * 0.5) * b1.props.bounce.Get(a)
            && o.b2.velocity.Get(a) == (v1 + v2) * 0.5 + (v1 - (v1 + v2) * 0.5) * b2.props.bounce.Get(a)
  {
    var v1 := b1.velocity.Get(a);
    var v2 := b2.velocity.Get(a);
    var n1 := Rescaled(sqrt, v2, b2.props.mass, b1.props.mass);
    var n2 := Rescaled(sqrt, v1, b1.props.mass, b2.props.mass);
    assert n1 == v2 && n2 == v1;
    var o := Exchange(b1, b2, a, ov, sqrt);
    assert o.b1.velocity.Get(a) == (n1 + n2) * 0.5 + (n1 - (n1 + n2) * 0.5) * b1.props.bounce.Get(a);
    assert o.b2.velocity.Get(a) == (n1 + n2) * 0.5 + (n2 - (n1 + n2) * 0.5) * b2.props.bounce.Get(a);
  }

  /** Equal masses and a bounce of 1 on both bodies: the two velocities on
      the axis are swapped. */
  lemma EqualMassesSwapVelocities(b1: Body, b2: Body, a: Axis, overlapOnly: bool, bias: real, sqrt: real -> real)
    requires b1.props.mass > 0.0 && b1.props.mass == b2.props.mass
    requires IsSqrt(sqrt)
    requires FullyResolved(b1, b2, a, overlapOnly, bias)
    requires !b1.props.immovable && !b2.props.immovable
    requires b1.props.bounce.Get(a) == 1.0 && b2.props.bounce.Get(a) == 1.0
    ensures var o := SeparateAxis(b1, b2, a, overlapOnly, bias, sqrt);
            o.b1.velocity.Get(a) == b2.velocity.Get(a) && o.b2.velocity.Get(a) == b1.velocity.Get(a)
  {
    var c := ResolvedOutcome(b1, b2, a, overlapOnly, bias, sqrt);
    EqualMassExchange(RecordOverlap(c.b1, a, c.overlap), RecordOverlap(c.b2, a, c.overlap), a, c.overlap, sqrt);
  }

  /** Equal masses and equal bounce: the sum of the two velocities on the
      axis (the momentum, up to the common mass) is conserved. */
  lemma EqualMassesConserveMomentum(b1: Body, b2: Body, a: Axis, overlapOnly: bool, bias: real, sqrt: real -> real)
    requires b1.props.mass > 0.0 && b1.props.mass == b2.props.mass
    requires IsSqrt(sqrt)
    requires FullyResolved(b1, b2, a, overlapOnly, bias)
    requires !b1.props.immovable && !b2.props.immovable
    requires b1.props.bounce.Get(a) == b2.props.bounce.Get(a)
    ensures var o := SeparateAxis(b1, b2, a, overlapOnly, bias, sqrt);
            o.b1.velocity.Get(a) + o.b2.velocity.Get(a) == b1.velocity.Get(a) + b2.velocity.Get(a)
  {
    var c := ResolvedOutcome(b1, b2, a, overlapOnly, bias, sqrt);
    EqualMassExchange(RecordOverlap(c.b1, a, c.overlap), RecordOverlap(c.b2, a, c.overlap), a, c.overlap, sqrt);
    var v1 := b1.velocity.Get(a);
    var v2 := b2.velocity.Get(a);
    var e := b1.props.bounce.Get(a);
    var avg := (v1 + v2) * 0.5;
    assert (avg + (v2 - avg) * e) + (avg + (v1 - avg) * e) == 2.0 * avg + ((v2 - avg) + (v1 - avg)) * e;
  }

  // ---------------------------------------------------------------------
  // The vertical platform step
  // ---------------------------------------------------------------------

  /** On the vertical axis a single movable body resting on a moving
      immovable one is carried by that body's horizontal displacement; the
      immovable body does not move. */
  lemma RiderFollowsPlatform(b1: Body, b2: Body, overlapOnly: bool, bias: real, sqrt: real -> real)
    requires b1.props.mass > 0.0 && b2.props.mass > 0.0
    requires FullyResolved(b1, b2, Z, overlapOnly, bias)
    requires b1.props.immovable && !b2.props.immovable && b1.props.moves
    ensures var o := SeparateAxis(b1, b2, Z, overlapOnly, bias, sqrt);
            && o.b2.position.x == b2.position.x + (b1.position.x - b1.props.prev.x)
            && o.b2.position.y == b2.position.y + (b1.position.y - b1.props.prev.y)
            && o.b1.position == b1.position && o.b1.velocity == b1.velocity
  {
    var c := ResolvedOutcome(b1, b2, Z, overlapOnly, bias, sqrt);
  }
}
