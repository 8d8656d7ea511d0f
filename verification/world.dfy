/** The isometric arcade physics world: velocity integration, the strict
    body-versus-body overlap test and the narrow-phase separation that pushes
    two overlapping bodies apart along one axis and exchanges their
    velocities.  Every routine of the source mutates bodies in place; here
    each returns the updated bodies. */
module IsoArcade {
  import opened Numerics
  import opened Points
  import Cube
  import Octree

  // ---------------------------------------------------------------------
  // Faces and per-axis flags
  // ---------------------------------------------------------------------

  /** The six faces named by the `checkCollision` and `touching` masks. */
  datatype Face = Up | Down | FrontX | FrontY | BackX | BackY

  datatype Faces = Faces(up: bool, down: bool, frontX: bool, frontY: bool, backX: bool, backY: bool) {

    function Get(f: Face): bool {
      match f
      case Up => up
      case Down => down
      case FrontX => frontX
      case FrontY => frontY
      case BackX => backX
      case BackY => backY
    }

    function Set(f: Face, v: bool): (r: Faces)
      ensures r.Get(f) == v
      ensures forall g: Face :: g != f ==> r.Get(g) == Get(g)
    {
      match f
      case Up => this.(up := v)
      case Down => this.(down := v)
      case FrontX => this.(frontX := v)
      case FrontY => this.(frontY := v)
      case BackX => this.(backX := v)
      case BackY => this.(backY := v)
    }
  }

  const AllFaces := Faces(true, true, true, true, true, true)
  const NoFaces := Faces(false, false, false, false, false, false)

  /** The face of the first body that meets the second when the first moves
      faster along `a`.  On the vertical axis the source calls it "down". */
  function PlusFace(a: Axis): Face {
    match a
    case X => FrontX
    case Y => FrontY
    case Z => Down
  }

  /** The opposite face on the same axis. */
  function MinusFace(a: Axis): Face {
    match a
    case X => BackX
    case Y => BackY
    case Z => Up
  }

  lemma FacesOfAnAxisDiffer(a: Axis, b: Axis)
    ensures PlusFace(a) != MinusFace(b)
    ensures PlusFace(a) == PlusFace(b) <==> a == b
    ensures MinusFace(a) == MinusFace(b) <==> a == b
  {
  }

  /** One boolean per axis (the `customSeparateX/Y/Z` opt-outs). */
  datatype Flags3 = Flags3(x: bool, y: bool, z: bool) {
    function Get(a: Axis): bool {
      match a
      case X => x
      case Y => y
      case Z => z
    }
  }

  // ---------------------------------------------------------------------
  // Bodies
  // ---------------------------------------------------------------------

  /** The properties of a body that separation reads but never changes. */
  datatype Props = Props(
    size: Point3,
    prev: Point3,
    delta: Point3,
    bounce: Point3,
    gravity: Point3,
    mass: real,
    allowGravity: bool,
    immovable: bool,
    enable: bool,
    moves: bool,
    checkCollision: Faces,
    customSeparate: Flags3)

  /** The fields of a physics body that the world reads or writes.  The Body
      class is not part of this model: its per-frame displacement `delta`
      is taken as a field, and |delta| is derived from it. */
  datatype Body = Body(
    position: Point3,
    velocity: Point3,
    props: Props,
    touching: Faces,
    touchingNone: bool,
    embedded: bool,
    overlap: Point3)
  {
    /** frontX, frontY and top. */
    function Front(a: Axis): real { position.Get(a) + props.size.Get(a) }

    function DeltaAbs(a: Axis): real { Abs(props.delta.Get(a)) }

    /** The body's box, as the octree stores it. */
    function Shape(): Cube.Box {
      Cube.Box(position.x, position.y, position.z, props.size.x, props.size.y, props.size.z)
    }
  }

  /** Everything separation leaves alone: only position, velocity, the
      touching mask, `embedded` and the recorded overlap may change. */
  predicate SameBody(b: Body, r: Body) {
    r.props == b.props
  }

  // ---------------------------------------------------------------------
  // The world
  // ---------------------------------------------------------------------

  datatype World = World(
    gravity: Point3,
    bounds: Cube.Box,
    checkCollision: Faces,
    maxObjects: int,
    maxLevels: int,
    overlapBias: real,
    forceXY: bool,
    skipTree: bool,
    useQuadTree: bool)

  /** The constructor, for a game world of the given pixel size: no gravity,
      bounds half the world wide on x and y and a quarter of its height on
      z, every face enabled, 10 objects and 4 levels for the tree, an
      overlap bias of 4. */
  function NewWorld(gameWidth: real, gameHeight: real): (w: World)
    ensures w.gravity == Origin3
    ensures w.bounds == Cube.Box(0.0, 0.0, 0.0, gameWidth * 0.5, gameWidth * 0.5, gameHeight * 0.25)
    ensures w.checkCollision == AllFaces
    ensures w.maxObjects == 10 && w.maxLevels == 4 && w.overlapBias == 4.0
    ensures !w.forceXY && !w.skipTree && !w.useQuadTree
  {
    World(MakePoint3(None, None, None),
          Cube.New(Some(0.0), Some(0.0), Some(0.0), Some(gameWidth * 0.5), Some(gameWidth * 0.5), Some(gameHeight * 0.25)),
          AllFaces, 10, 4, 4.0, false, false, false)
  }

  /** `setBounds`: only the bounds change. */
  function SetBounds(w: World, x: real, y: real, z: real, widthX: real, widthY: real, height: real): (r: World)
    ensures r.bounds == Cube.Box(x, y, z, widthX, widthY, height)
    ensures r == w.(bounds := r.bounds)
  {
    w.(bounds := Cube.SetTo(w.bounds, x, y, z, widthX, widthY, height))
  }

  /** `setBoundsToWorld`: unlike the constructor it uses half the game
      height for the z extent. */
  function SetBoundsToWorld(w: World, gameWidth: real, gameHeight: real): (r: World)
    ensures r.bounds == Cube.Box(0.0, 0.0, 0.0, gameWidth * 0.5, gameWidth * 0.5, gameHeight * 0.5)
    ensures r == w.(bounds := r.bounds)
  {
    SetBounds(w, 0.0, 0.0, 0.0, gameWidth * 0.5, gameWidth * 0.5, gameHeight * 0.5)
  }

  /** The octree the world rebuilds before a sprite-versus-group check: its
      region is the world bounds and its caps are the world's. */
  function WorldTree(w: World): (t: Octree.Node)
    ensures t.objects == [] && t.nodes == [] && t.level == 0
    ensures w.maxObjects != 0 ==> t.maxObjects == w.maxObjects
    ensures w.maxLevels != 0 ==> t.maxLevels == w.maxLevels
    ensures Octree.Contents(t) == multiset{}
  {
    Octree.Reset(w.bounds.x, w.bounds.y, w.bounds.z, w.bounds.widthX, w.bounds.widthY, w.bounds.height,
                 Some(w.maxObjects), Some(w.maxLevels), None)
  }

  // ---------------------------------------------------------------------
  // Velocity integration
  // ---------------------------------------------------------------------

  /** Which quantity `computeVelocity` integrates: the angular velocity
      (axis 0 in the source) or one linear axis (1, 2, 3). */
  datatype Motion = Angular | Linear(axis: Axis)

  /** Gravity applies to the linear axes only, and only when the body
      allows it. */
  function GravityStep(w: World, motion: Motion, body: Body, velocity: real, elapsed: real): (r: real)
    ensures motion.Angular? || !body.props.allowGravity ==> r == velocity
    ensures motion.Linear? && body.props.allowGravity ==>
              r - velocity == (w.gravity.Get(motion.axis) + body.props.gravity.Get(motion.axis)) * elapsed
  {
    match motion
    case Angular => velocity
    case Linear(a) =>
      if body.props.allowGravity then velocity + (w.gravity.Get(a) + body.props.gravity.Get(a)) * elapsed
      else velocity
  }

  /** A nonzero acceleration is integrated; otherwise a nonzero drag pulls
      the velocity towards 0 by `drag * elapsed`, stopping at 0. */
  function DragStep(velocity: real, acceleration: real, drag: real, elapsed: real): (r: real)
    ensures acceleration != 0.0 ==> r == velocity + acceleration * elapsed
    ensures acceleration == 0.0 && drag * elapsed >= 0.0 ==>
              && Abs(r) == (if Abs(velocity) > drag * elapsed then Abs(velocity) - drag * elapsed else 0.0)
              && r * velocity >= 0.0
  {
    if acceleration != 0.0 then velocity + acceleration * elapsed
    else if drag != 0.0 then
      var d := drag * elapsed;
      if velocity - d > 0.0 then velocity - d
      else if velocity + d < 0.0 then velocity + d
      else 0.0
    else velocity
  }

  /** The final cap on the velocity's magnitude. */
  function Clamp(velocity: real, max: real): (r: real)
    ensures max >= 0.0 ==> -max <= r <= max
    ensures -max <= velocity <= max ==> r == velocity
    ensures max >= 0.0 ==> r * velocity >= 0.0 && Abs(r) <= Abs(velocity)
  {
    if velocity > max then max
    else if velocity < -max then -max
    else velocity
  }

  /** `computeVelocity`; the frame time is a parameter, and an absent or
      zero cap means 10000. */
  function ComputeVelocity(w: World, motion: Motion, body: Body, velocity: real,
                           acceleration: real, drag: real, max: Option<real>, elapsed: real): (r: real)
    ensures OrReal(max, 10000.0) >= 0.0 ==> Abs(r) <= OrReal(max, 10000.0)
    ensures max.None? ==> -10000.0 <= r <= 10000.0
  {
    Clamp(DragStep(GravityStep(w, motion, body, velocity, elapsed), acceleration, drag, elapsed),
          OrReal(max, 10000.0))
  }

  /** A nonzero acceleration suppresses drag: the drag value has no effect. */
  lemma AccelerationSuppressesDrag(w: World, motion: Motion, body: Body, velocity: real,
                                   acceleration: real, drag1: real, drag2: real, max: Option<real>, elapsed: real)
    requires acceleration != 0.0
    ensures ComputeVelocity(w, motion, body, velocity, acceleration, drag1, max, elapsed)
         == ComputeVelocity(w, motion, body, velocity, acceleration, drag2, max, elapsed)
  {
  }

  /** Without acceleration and with a non-negative drag step, the result
      never has the opposite sign of the velocity after gravity, and is no
      larger in magnitude. */
  lemma DragNeverFlipsSign(w: World, motion: Motion, body: Body, velocity: real,
                           drag: real, max: Option<real>, elapsed: real)
    requires drag * elapsed >= 0.0
    requires OrReal(max, 10000.0) >= 0.0
    ensures var u := GravityStep(w, motion, body, velocity, elapsed);
            var r := ComputeVelocity(w, motion, body, velocity, 0.0, drag, max, elapsed);
            r * u >= 0.0 && Abs(r) <= Abs(u)
  {
    var u := GravityStep(w, motion, body, velocity, elapsed);
    var s := DragStep(u, 0.0, drag, elapsed);
    var r := Clamp(s, OrReal(max, 10000.0));
    assert s * u >= 0.0 && Abs(s) <= Abs(u);
    assert r * s >= 0.0 && Abs(r) <= Abs(s);
    if r != 0.0 && u != 0.0 {
      assert (r * s) * (s * u) >= 0.0;
      assert (r * u) * (s * s) >= 0.0;
    }
  }

  // ---------------------------------------------------------------------
  // Strict overlap
  // ---------------------------------------------------------------------

  /** The two bodies' extents along `a` share interior points. */
  predicate OverlapOn(b1: Body, b2: Body, a: Axis) {
    b2.position.Get(a) < b1.Front(a) && b1.position.Get(a) < b2.Front(a)
  }

  /** `intersects`: strict on every face, so bodies whose faces only touch
      do not intersect. */
  function Intersects(b1: Body, b2: Body): (r: bool)
    ensures r <==> OverlapOn(b1, b2, X) && OverlapOn(b1, b2, Y) && OverlapOn(b1, b2, Z)
  {
    if b1.Front(X) <= b2.position.x then false
    else if b1.Front(Y) <= b2.position.y then false
    else if b1.position.x >= b2.Front(X) then false
    else if b1.position.y >= b2.Front(Y) then false
    else if b1.Front(Z) <= b2.position.z then false
    else if b1.position.z >= b2.Front(Z) then false
    else true
  }

  lemma IntersectsSymmetric(b1: Body, b2: Body)
    ensures Intersects(b1, b2) == Intersects(b2, b1)
  {
  }

  /** Bodies whose faces meet on some axis do not intersect. */
  lemma FacesMeetDoNotIntersect(b1: Body, b2: Body, a: Axis)
    requires b1.Front(a) == b2.position.Get(a) || b2.Front(a) == b1.position.Get(a)
    ensures !Intersects(b1, b2)
  {
  }

  /** A strict overlap of two proper boxes is an overlap in the inclusive
      sense of `Cube.intersects` as well. */
  lemma StrictImpliesInclusive(b1: Body, b2: Body)
    requires !b1.Shape().Degenerate() && !b2.Shape().Degenerate()
    requires Intersects(b1, b2)
    ensures Cube.Intersects(b1.Shape(), b2.Shape())
  {
    assert b2.position.Get(X) < b1.Front(X) && b1.position.Get(X) < b2.Front(X);
    assert b2.position.Get(Y) < b1.Front(Y) && b1.position.Get(Y) < b2.Front(Y);
    assert b2.position.Get(Z) < b1.Front(Z) && b1.position.Get(Z) < b2.Front(Z);
  }

  /** Overlapping bodies are never separated by a plane, whatever their
      extents; this is what lets the octree serve as a broad phase. */
  lemma IntersectingNotSeparated(b1: Body, b2: Body)
    requires Intersects(b1, b2)
    ensures !Cube.Separated(b1.Shape(), b2.Shape())
  {
    assert b2.position.Get(X) < b1.Front(X) && b1.position.Get(X) < b2.Front(X);
    assert b2.position.Get(Y) < b1.Front(Y) && b1.position.Get(Y) < b2.Front(Y);
    assert b2.position.Get(Z) < b1.Front(Z) && b1.position.Get(Z) < b2.Front(Z);
  }

  /** The strict test has no degenerate-extent guard: a body of zero width
      lying strictly inside another one does intersect it. */
  lemma ZeroWidthBodyCanIntersect(b1: Body, b2: Body)
    requires b1.position == Point3(5.0, 5.0, 5.0) && b1.props.size == Point3(0.0, 1.0, 1.0)
    requires b2.position == Point3(0.0, 0.0, 0.0) && b2.props.size == Point3(10.0, 10.0, 10.0)
    ensures Intersects(b1, b2)
  {
  }

  // ---------------------------------------------------------------------
  // Separation along one axis
  // ---------------------------------------------------------------------

  /** The result of a separation step: both bodies and whether it
      separated them. */
  datatype Outcome = Outcome(b1: Body, b2: Body, separated: bool)

  /** The result of the overlap classification: both bodies (with
      `embedded` or the touching flags updated) and the overlap to resolve,
      0 when there is none. */
  datatype Contact = Contact(b1: Body, b2: Body, overlap: real)

  /** The largest overlap the step will resolve: both displacements plus
      the world's bias. */
  function MaxOverlap(b1: Body, b2: Body, a: Axis, bias: real): real {
    b1.DeltaAbs(a) + b2.DeltaAbs(a) + bias
  }

  /** The step resolves an overlap on `a` exactly when the bodies move at
      different rates along `a`, the overlap on the leading face is within
      the cap, and both faces involved accept collisions. */
  predicate Admitted(b1: Body, b2: Body, a: Axis, bias: real) {
    var d1 := b1.props.delta.Get(a);
    var d2 := b2.props.delta.Get(a);
    || (d1 > d2 && b1.Front(a) - b2.position.Get(a) <= MaxOverlap(b1, b2, a, bias)
        && b1.props.checkCollision.Get(PlusFace(a)) && b2.props.checkCollision.Get(MinusFace(a)))
    || (d1 < d2 && b2.Front(a) - b1.position.Get(a) <= MaxOverlap(b1, b2, a, bias)
        && b1.props.checkCollision.Get(MinusFace(a)) && b2.props.checkCollision.Get(PlusFace(a)))
  }

  function Touch(b: Body, f: Face): (r: Body)
    ensures r.touching.Get(f) && !r.touchingNone
    ensures r == b.(touching := r.touching, touchingNone := false)
    ensures forall g: Face :: g != f ==> r.touching.Get(g) == b.touching.Get(g)
  {
    b.(touching := b.touching.Set(f, true), touchingNone := false)
  }

  /** Both bodies overlap without moving along `a`: they are marked
      embedded and nothing is resolved. */
  function Embed(b1: Body, b2: Body): (c: Contact)
    ensures SameBody(b1, c.b1) && SameBody(b2, c.b2)
    ensures c.b1 == b1.(embedded := true) && c.b2 == b2.(embedded := true)
    ensures c.overlap == 0.0
  {
    Contact(b1.(embedded := true), b2.(embedded := true), 0.0)
  }

  /** The first body moves faster along `a`: its front face has entered
      the second body's back face.  The overlap is kept only within the cap
      and when both faces accept collisions; then both faces touch. */
  function Leading(b1: Body, b2: Body, a: Axis, bias: real): (c: Contact)
    ensures SameBody(b1, c.b1) && SameBody(b2, c.b2)
    ensures c.b1.position == b1.position && c.b1.velocity == b1.velocity && c.b1.overlap == b1.overlap
    ensures c.b2.position == b2.position && c.b2.velocity == b2.velocity && c.b2.overlap == b2.overlap
    ensures c.overlap != 0.0 ==> c.overlap == b1.Front(a) - b2.position.Get(a)
    ensures c.overlap != 0.0 ==> c.b1.touching.Get(PlusFace(a)) && c.b2.touching.Get(MinusFace(a))
  {
    var ov := b1.Front(a) - b2.position.Get(a);
    if ov > MaxOverlap(b1, b2, a, bias) || !b1.props.checkCollision.Get(PlusFace(a)) || !b2.props.checkCollision.Get(MinusFace(a)) then
      Contact(b1, b2, 0.0)
    else
      Contact(Touch(b1, PlusFace(a)), Touch(b2, MinusFace(a)), ov)
  }

  /** The second body moves faster along `a`: the mirror image, with a
      negative overlap measured from the first body's back face. */
  function Trailing(b1: Body, b2: Body, a: Axis, bias: real): (c: Contact)
    ensures SameBody(b1, c.b1) && SameBody(b2, c.b2)
    ensures c.b1.position == b1.position && c.b1.velocity == b1.velocity && c.b1.overlap == b1.overlap
    ensures c.b2.position == b2.position && c.b2.velocity == b2.velocity && c.b2.overlap == b2.overlap
    ensures c.overlap != 0.0 ==> c.overlap == b1.position.Get(a) - b2.Front(a)
    ensures c.overlap != 0.0 ==> c.b1.touching.Get(MinusFace(a)) && c.b2.touching.Get(PlusFace(a))
  {
    var ov := b1.position.Get(a) - b2.props.size.Get(a) - b2.position.Get(a);
    if -ov > MaxOverlap(b1, b2, a, bias) || !b1.props.checkCollision.Get(MinusFace(a)) || !b2.props.checkCollision.Get(PlusFace(a)) then
      Contact(b1, b2, 0.0)
    else
      Contact(Touch(b1, MinusFace(a)), Touch(b2, PlusFace(a)), ov)
  }

  /** The classification half of `separateX/Y/Z`: embedded when neither
      body moves along `a`, otherwise the faster body's leading face
      decides; equal nonzero displacements resolve nothing. */
  function Detect(b1: Body, b2: Body, a: Axis, bias: real): (c: Contact)
    ensures SameBody(b1, c.b1) && SameBody(b2, c.b2)
    ensures c.b1.position == b1.position && c.b1.velocity == b1.velocity && c.b1.overlap == b1.overlap
    ensures c.b2.position == b2.position && c.b2.velocity == b2.velocity && c.b2.overlap == b2.overlap
  {
    var d1 := b1.props.delta.Get(a);
    var d2 := b2.props.delta.Get(a);
    if d1 == 0.0 && d2 == 0.0 then Embed(b1, b2)
    else if d1 > d2 then Leading(b1, b2, a, bias)
    else if d1 < d2 then Trailing(b1, b2, a, bias)
    else Contact(b1, b2, 0.0)
  }

  /** Between overlapping bodies an overlap is kept exactly when the step
      is admitted; it is positive when the first body leads and negative
      when it trails, and a discarded overlap leaves the bodies as they
      were apart from `embedded`. */
  lemma DetectAdmits(b1: Body, b2: Body, a: Axis, bias: real)
    requires Intersects(b1, b2)
    ensures var c := Detect(b1, b2, a, bias);
            && (c.overlap != 0.0 <==> Admitted(b1, b2, a, bias))
            && (c.overlap > 0.0 ==> c.overlap == b1.Front(a) - b2.position.Get(a))
            && (c.overlap < 0.0 ==> c.overlap == b1.position.Get(a) - b2.Front(a))
            && (c.overlap == 0.0 ==> c.b1 == b1.(embedded := c.b1.embedded) && c.b2 == b2.(embedded := c.b2.embedded))
  {
    assert OverlapOn(b1, b2, a) by {
      match a
      case X =>
      case Y =>
      case Z =>
    }
  }

  /** The sign factor of the velocity exchange: 1 for a positive velocity,
      otherwise -1. */
  function Direction(v: real): (r: real)
    ensures r == 1.0 || r == -1.0
    ensures Abs(v) * r == v
  {
    if v > 0.0 then 1.0 else -1.0
  }

  /** The velocity one body hands the other in the exchange: its own
      velocity `v`, rescaled by the mass ratio through `sqrt`, with v's sign
      factor. */
  function Rescaled(sqrt: real -> real, v: real, giver: real, receiver: real): (r: real)
    requires receiver != 0.0
    ensures IsSqrt(sqrt) && giver == receiver ==> r == v
  {
    EqualMassRoot(sqrt, v, giver, receiver);
    sqrt((v * v * giver) / receiver) * Direction(v)
  }

  /** Between equal masses the rescaling root is the identity on speeds. */
  lemma EqualMassRoot(sqrt: real -> real, v: real, giver: real, receiver: real)
    requires receiver != 0.0
    ensures IsSqrt(sqrt) && giver == receiver ==> sqrt((v * v * giver) / receiver) == Abs(v)
  {
    if IsSqrt(sqrt) && giver == receiver {
      assert (v * v * giver) / receiver == v * v;
      SqrtOfSquare(sqrt, v);
    }
  }

  /** `sqrt` behaves as the square root on the non-negative reals. */
  ghost predicate IsSqrt(sqrt: real -> real) {
    forall x: real :: x >= 0.0 ==> sqrt(x) >= 0.0 && sqrt(x) * sqrt(x) == x
  }

  lemma SqrtOfSquare(sqrt: real -> real, v: real)
    requires IsSqrt(sqrt)
    ensures sqrt(v * v) == Abs(v)
  {
    var r := sqrt(v * v);
    var u := Abs(v);
    assert v * v >= 0.0;
    assert r >= 0.0 && r * r == v * v;
    assert u * u == v * v;
    SquareMonotone(r, u);
    SquareMonotone(u, r);
  }

  lemma SquareMonotone(x: real, y: real)
    ensures 0.0 <= y < x ==> y * y < x * x
  {
    if 0.0 <= y < x {
      var d := x - y;
      assert x * x == y * y + 2.0 * (y * d) + d * d;
      assert y * d >= 0.0 && d * d > 0.0;
    }
  }

  /** The platform step of the vertical axis: a rider resting on a moving
      body is carried along by that body's horizontal displacement.  Only
      the rider changes.  (The source updates the wrong body in one of its
      two branches; see `AsWritten.ResolveZAsWritten`.) */
  function Ride(rider: Body, platform: Body): (r: Body)
    ensures r == rider.(position := r.position)
    ensures r.position.z == rider.position.z
    ensures platform.props.moves ==> r.position.x - rider.position.x == platform.position.x - platform.props.prev.x
    ensures platform.props.moves ==> r.position.y - rider.position.y == platform.position.y - platform.props.prev.y
    ensures !platform.props.moves ==> r == rider
  {
    if platform.props.moves then
      rider.(position := Point3(rider.position.x + (platform.position.x - platform.props.prev.x),
                                rider.position.y + (platform.position.y - platform.props.prev.y),
                                rider.position.z))
    else rider
  }

  /** Two movable bodies share the overlap and exchange momentum: each new
      velocity is the other's, rescaled by the mass ratio through `sqrt`,
      then split into the common average and a bounce-scaled remainder.
      Only the two bodies' position and velocity along `a` change. */
  function Exchange(b1: Body, b2: Body, a: Axis, ov: real, sqrt: real -> real): (o: Outcome)
    requires b1.props.mass > 0.0 && b2.props.mass > 0.0
    ensures o.separated
    ensures o.b1 == b1.(position := b1.position.With(a, b1.position.Get(a) - ov * 0.5),
                        velocity := b1.velocity.With(a, o.b1.velocity.Get(a)))
    ensures o.b2 == b2.(position := b2.position.With(a, b2.position.Get(a) + ov * 0.5),
                        velocity := b2.velocity.With(a, o.b2.velocity.Get(a)))
  {
    var v1 := b1.velocity.Get(a);
    var v2 := b2.velocity.Get(a);
    var n1 := Rescaled(sqrt, v2, b2.props.mass, b1.props.mass);
    var n2 := Rescaled(sqrt, v1, b1.props.mass, b2.props.mass);
    var average := (n1 + n2) * 0.5;
    Outcome(b1.(position := b1.position.With(a, b1.position.Get(a) - ov * 0.5),
                velocity := b1.velocity.With(a, average + (n1 - average) * b1.props.bounce.Get(a))),
            b2.(position := b2.position.With(a, b2.position.Get(a) + ov * 0.5),
                velocity := b2.velocity.With(a, average + (n2 - average) * b2.props.bounce.Get(a))),
            true)
  }

  /** A single movable body takes the whole overlap (`shift` is its signed
      displacement) and rebounds off the other: its new velocity along `a`
      is the other's minus its own scaled by its bounce. */
  function Rebound(mover: Body, other: Body, a: Axis, shift: real): (r: Body)
    ensures r == mover.(position := mover.position.With(a, mover.position.Get(a) + shift),
                        velocity := mover.velocity.With(a, r.velocity.Get(a)))
  {
    mover.(position := mover.position.With(a, mover.position.Get(a) + shift),
           velocity := mover.velocity.With(a, other.velocity.Get(a) - mover.velocity.Get(a) * mover.props.bounce.Get(a)))
  }

  /** The resolution half of `separateX/Y/Z`: move the movable bodies apart
      by the overlap and exchange velocities; on the vertical axis a single
      movable body also rides the other. */
  function Resolve(b1: Body, b2: Body, a: Axis, ov: real, sqrt: real -> real): (o: Outcome)
    requires b1.props.mass > 0.0 && b2.props.mass > 0.0
    ensures o.separated
    ensures SameBody(b1, o.b1) && SameBody(b2, o.b2)
    ensures o.b1 == b1.(position := o.b1.position, velocity := o.b1.velocity)
    ensures o.b2 == b2.(position := o.b2.position, velocity := o.b2.velocity)
    ensures b1.props.immovable ==> o.b1 == b1
    ensures b2.props.immovable ==> o.b2 == b2
  {
    if !b1.props.immovable && !b2.props.immovable then
      Exchange(b1, b2, a, ov, sqrt)
    else if !b1.props.immovable then
      var moved := Rebound(b1, b2, a, -ov);
      Outcome(if a == Z then Ride(moved, b2) else moved, b2, true)
    else if !b2.props.immovable then
      var moved := Rebound(b2, b1, a, ov);
      Outcome(b1, if a == Z then Ride(moved, b1) else moved, true)
    else
      Outcome(b1, b2, true)
  }

  /** Record the kept overlap on a body (`overlapX/Y/Z`). */
  function RecordOverlap(b: Body, a: Axis, ov: real): (r: Body)
    ensures SameBody(b, r) && r.position == b.position && r.velocity == b.velocity
    ensures r.overlap.Get(a) == ov
    ensures r == b.(overlap := r.overlap)
  {
    b.(overlap := b.overlap.With(a, ov))
  }

  /** What happens to a kept overlap: it is recorded on both bodies, and
      unless only the overlap was asked for or either body opts out of
      separating on this axis, it is resolved.  (On the vertical axis the
      source reads the first body's y flag; see `AsWritten.ApplyZAsWritten`.) */
  function Apply(c: Contact, a: Axis, overlapOnly: bool, sqrt: real -> real): (o: Outcome)
    requires c.b1.props.mass > 0.0 && c.b2.props.mass > 0.0
    ensures o.separated
    ensures SameBody(c.b1, o.b1) && SameBody(c.b2, o.b2)
    ensures c.b1.props.immovable ==> o.b1.position == c.b1.position && o.b1.velocity == c.b1.velocity
    ensures c.b2.props.immovable ==> o.b2.position == c.b2.position && o.b2.velocity == c.b2.velocity
  {
    var r1 := RecordOverlap(c.b1, a, c.overlap);
    var r2 := RecordOverlap(c.b2, a, c.overlap);
    if overlapOnly || r1.props.customSeparate.Get(a) || r2.props.customSeparate.Get(a) then Outcome(r1, r2, true)
    else Resolve(r1, r2, a, c.overlap, sqrt)
  }

  /** `separateX`, `separateY` and `separateZ` as one function of the axis
      (the vertical one adds the platform step).  The opt-out flag read is
      the one of the axis being separated. */
  function SeparateAxis(b1: Body, b2: Body, a: Axis, overlapOnly: bool, bias: real, sqrt: real -> real): (o: Outcome)
    requires b1.props.mass > 0.0 && b2.props.mass > 0.0
    ensures SameBody(b1, o.b1) && SameBody(b2, o.b2)
    ensures (b1.props.immovable && b2.props.immovable) || !Intersects(b1, b2) ==> o == Outcome(b1, b2, false)
    ensures o.separated ==> Intersects(b1, b2) && !(b1.props.immovable && b2.props.immovable)
    ensures b1.props.immovable ==> o.b1.position == b1.position && o.b1.velocity == b1.velocity
    ensures b2.props.immovable ==> o.b2.position == b2.position && o.b2.velocity == b2.velocity
    ensures !o.separated ==> o.b1.position == b1.position && o.b1.velocity == b1.velocity
    ensures !o.separated ==> o.b2.position == b2.position && o.b2.velocity == b2.velocity
  {
    if b1.props.immovable && b2.props.immovable then Outcome(b1, b2, false)
    else if !Intersects(b1, b2) then Outcome(b1, b2, false)
    else
      var c := Detect(b1, b2, a, bias);
      if c.overlap == 0.0 then Outcome(c.b1, c.b2, false)
      else Apply(c, a, overlapOnly, sqrt)
  }

  // ---------------------------------------------------------------------
  // The pair-level entry point
  // ---------------------------------------------------------------------

  /** The axes tried in turn: x, y, z when the world forces it or when
      gravity (the world's plus the first body's) is weaker vertically than
      along x or y; otherwise z first. */
  function AxisOrder(w: World, b1: Body): (r: seq<Axis>)
    ensures |r| == 3 && multiset(r) == multiset{X, Y, Z}
    ensures r[0] == Z <==>
              !(w.forceXY
                || Abs(w.gravity.z + b1.props.gravity.z) < Abs(w.gravity.x + b1.props.gravity.x)
                || Abs(w.gravity.z + b1.props.gravity.z) < Abs(w.gravity.y + b1.props.gravity.y))
    ensures r[0] != Z ==> r == [X, Y, Z]
  {
    var gz := Abs(w.gravity.z + b1.props.gravity.z);
    if w.forceXY || gz < Abs(w.gravity.x + b1.props.gravity.x) || gz < Abs(w.gravity.y + b1.props.gravity.y) then [X, Y, Z]
    else [Z, X, Y]
  }

  /** The short-circuit disjunction of the per-axis steps: each axis sees
      the bodies as the previous axes left them, and the first axis that
      separates ends the chain. */
  function SeparateChain(b1: Body, b2: Body, axes: seq<Axis>, overlapOnly: bool, bias: real, sqrt: real -> real): (o: Outcome)
    requires b1.props.mass > 0.0 && b2.props.mass > 0.0
    ensures SameBody(b1, o.b1) && SameBody(b2, o.b2)
    ensures b1.props.immovable ==> o.b1.position == b1.position && o.b1.velocity == b1.velocity
    ensures b2.props.immovable ==> o.b2.position == b2.position && o.b2.velocity == b2.velocity
    ensures o.separated ==> Intersects(b1, b2) && !(b1.props.immovable && b2.props.immovable)
    ensures !o.separated ==> o.b1.position == b1.position && o.b1.velocity == b1.velocity
    ensures !o.separated ==> o.b2.position == b2.position && o.b2.velocity == b2.velocity
    decreases |axes|
  {
    if axes == [] then Outcome(b1, b2, false)
    else
      var s := SeparateAxis(b1, b2, axes[0], overlapOnly, bias, sqrt);
      if s.separated then s
      else
        assert Intersects(s.b1, s.b2) == Intersects(b1, b2);
        SeparateChain(s.b1, s.b2, axes[1..], overlapOnly, bias, sqrt)
  }

  /** `separate`.  `process` is what the process callback returned, or None
      when there is none; only an explicit false vetoes the pair. */
  function Separate(w: World, b1: Body, b2: Body, process: Option<bool>, overlapOnly: bool, sqrt: real -> real): (o: Outcome)
    requires b1.props.mass > 0.0 && b2.props.mass > 0.0
    ensures !b1.props.enable || !b2.props.enable || !Intersects(b1, b2) || process == Some(false) ==> o == Outcome(b1, b2, false)
    ensures b1.props.enable && b2.props.enable && Intersects(b1, b2) && process != Some(false) && overlapOnly ==> o == Outcome(b1, b2, true)
    ensures o.separated ==> b1.props.enable && b2.props.enable && Intersects(b1, b2)
    ensures SameBody(b1, o.b1) && SameBody(b2, o.b2)
    ensures b1.props.immovable ==> o.b1.position == b1.position && o.b1.velocity == b1.velocity
    ensures b2.props.immovable ==> o.b2.position == b2.position && o.b2.velocity == b2.velocity
  {
    if !b1.props.enable || !b2.props.enable || !Intersects(b1, b2) then Outcome(b1, b2, false)
    else if process == Some(false) then Outcome(b1, b2, false)
    else if overlapOnly then Outcome(b1, b2, true)
    else SeparateChain(b1, b2, AxisOrder(w, b1), overlapOnly, w.overlapBias, sqrt)
  }
}
