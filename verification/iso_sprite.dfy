/** The isometric sprite: an iso-space position, the screen position derived
    from it, and the box-shaped body kept in step with it.  The image's
    pixel width and height come from its texture and are taken as fields;
    the snapping function is a parameter. */
module IsoSprite {
  import opened Numerics
  import opened Points
  import Cube
  import Isometric

  datatype Sprite = Sprite(
    iso: Point3,
    position: Point2,
    body: Option<Cube.Box>,
    snap: real,
    width: real,
    height: real)

  /** The fixed 2:1 projection the sprite uses for its own screen position,
      with no anchor offset. */
  function IsoToOrtho(q: Point3): (out: Point2)
    ensures out.x == q.x - q.y
    ensures out.y == (q.x + q.y) * 0.5 - q.z
  {
    Point2(q.x - q.y, (q.x + q.y) * 0.5 - q.z)
  }

  /** `isoToOrtho` is the world projection at the classic ratio, less the
      anchor offset. */
  lemma IsoToOrthoIsClassicProjection(p: Isometric.Projector, worldWidth: real, worldHeight: real, q: Point3)
    requires p.projectionRatio == Isometric.Classic
    ensures Isometric.Project(p, worldWidth, worldHeight, q)
            == Point2(IsoToOrtho(q).x + worldWidth * p.anchor.x, IsoToOrtho(q).y + worldHeight * p.anchor.y)
  {
  }

  /** Where the body sits for a given iso position: at the position, lowered
      by a tenth of the image height. */
  function BodyAt(b: Cube.Box, iso: Point3, height: real): (r: Cube.Box)
    ensures r.widthX == b.widthX && r.widthY == b.widthY && r.height == b.height
  {
    b.(x := iso.x, y := iso.y, z := iso.z - height * 0.1)
  }

  /** A body is left where it is exactly when it already sits at the iso
      position. */
  lemma BodyAtFixed(b: Cube.Box, iso: Point3, height: real)
    ensures BodyAt(b, iso, height) == b <==> b.x == iso.x && b.y == iso.y && b.z == iso.z - height * 0.1
  {
  }

  /** The sprite has a body and it sits where `_toIso` puts it. */
  predicate BodyInPlace(s: Sprite) {
    && s.body.Some?
    && s.body.value.x == s.iso.x && s.body.value.y == s.iso.y
    && s.body.value.z == s.iso.z - s.height * 0.1
  }

  /** `_toIso`: recompute the screen position from the iso position, move
      the body (when there is one) and snap the screen position when a snap
      step is set.  Only the screen position and the body's origin change. */
  function ToIso(s: Sprite, snapTo: (real, real) -> real): (r: Sprite)
    ensures r.iso == s.iso && r.snap == s.snap && r.width == s.width && r.height == s.height
    ensures r.body.Some? <==> s.body.Some?
    ensures s.body.Some? ==> r.body.value.x == s.iso.x && r.body.value.y == s.iso.y
                             && r.body.value.z == s.iso.z - s.height * 0.1
    ensures s.body.Some? ==> r.body.value.widthX == s.body.value.widthX && r.body.value.widthY == s.body.value.widthY
                             && r.body.value.height == s.body.value.height
    ensures s.snap == 0.0 ==> r.position == IsoToOrtho(s.iso)
    ensures s.snap != 0.0 ==> r.position == Point2(snapTo(IsoToOrtho(s.iso).x, s.snap), snapTo(IsoToOrtho(s.iso).y, s.snap))
  {
    var screen := IsoToOrtho(s.iso);
    var body := if s.body.Some? then Some(BodyAt(s.body.value, s.iso, s.height)) else None;
    var position := if s.snap != 0.0 then Point2(snapTo(screen.x, s.snap), snapTo(screen.y, s.snap)) else screen;
    s.(position := position, body := body)
  }

  /** The sync depends only on the iso position, so running it twice is
      running it once. */
  lemma ToIsoIdempotent(s: Sprite, snapTo: (real, real) -> real)
    ensures ToIso(ToIso(s, snapTo), snapTo) == ToIso(s, snapTo)
  {
  }

  /** The `ix` setter. */
  function SetIx(s: Sprite, v: real, snapTo: (real, real) -> real): (r: Sprite)
    ensures r.iso == s.iso.(x := v)
    ensures r == ToIso(s.(iso := r.iso), snapTo)
  {
    ToIso(s.(iso := s.iso.(x := v)), snapTo)
  }

  /** The `iy` setter. */
  function SetIy(s: Sprite, v: real, snapTo: (real, real) -> real): (r: Sprite)
    ensures r.iso == s.iso.(y := v)
    ensures r == ToIso(s.(iso := r.iso), snapTo)
  {
    ToIso(s.(iso := s.iso.(y := v)), snapTo)
  }

  /** The `iz` setter. */
  function SetIz(s: Sprite, v: real, snapTo: (real, real) -> real): (r: Sprite)
    ensures r.iso == s.iso.(z := v)
    ensures r == ToIso(s.(iso := r.iso), snapTo)
  {
    ToIso(s.(iso := s.iso.(z := v)), snapTo)
  }

  /** The setters touch independent coordinates, so their order does not
      matter. */
  lemma SettersCommute(s: Sprite, a: real, b: real, c: real, snapTo: (real, real) -> real)
    ensures SetIx(SetIy(s, b, snapTo), a, snapTo) == SetIy(SetIx(s, a, snapTo), b, snapTo)
    ensures SetIx(SetIz(s, c, snapTo), a, snapTo) == SetIz(SetIx(s, a, snapTo), c, snapTo)
    ensures SetIy(SetIz(s, c, snapTo), b, snapTo) == SetIz(SetIy(s, b, snapTo), c, snapTo)
  {
  }

  /** Setting a coordinate and reading it back gives the value set, and a
      set body follows the new position. */
  lemma SetIzMovesBody(s: Sprite, v: real, snapTo: (real, real) -> real)
    requires s.body.Some?
    ensures SetIz(s, v, snapTo).iso.z == v
    ensures SetIz(s, v, snapTo).body.value.z == v - s.height * 0.1
    ensures SetIz(s, v, snapTo).body.value.x == s.iso.x && SetIz(s, v, snapTo).body.value.y == s.iso.y
  {
  }

  /** `depth`, the drawing-order key: the sum of the iso coordinates. */
  function Depth(s: Sprite): (r: real) {
    (s.iso.x + s.iso.y) + s.iso.z
  }

  /** A sprite further along every axis draws later. */
  lemma DepthMonotone(s: Sprite, t: Sprite)
    requires s.iso.x <= t.iso.x && s.iso.y <= t.iso.y && s.iso.z <= t.iso.z
    ensures Depth(s) <= Depth(t)
    ensures Depth(s) == Depth(t) <==> s.iso == t.iso
  {
  }

  /** Raising a sprite raises its depth by the same amount. */
  lemma DepthAfterSetIz(s: Sprite, v: real, snapTo: (real, real) -> real)
    ensures Depth(SetIz(s, v, snapTo)) == Depth(s) + (v - s.iso.z)
  {
  }

  /** The constructor.  The image places itself at (x, y) and the first
      `_toIso` runs before the snap step is set and before the body exists,
      so the initial screen position is unsnapped.  The body's footprint is
      half the image width on each ground axis and its height is 0.66 of
      the image height. */
  function New(x: Option<real>, y: Option<real>, z: Option<real>, width: real, height: real): (r: Sprite)
    ensures r.iso == MakePoint3(x, y, z)
    ensures r.position == IsoToOrtho(r.iso)
    ensures r.snap == 0.3
    ensures r.body.Some?
    ensures r.body.value.widthX == width * 0.5 && r.body.value.widthY == width * 0.5
    ensures r.body.value.height == height * 0.66
    ensures r.width == width && r.height == height
    ensures BodyInPlace(r)
  {
    var iso := MakePoint3(x, y, z);
    // The first sync, with no body and no snap step yet, sets only the
    // screen position.
    var synced := IsoToOrtho(iso);
    Sprite(iso, synced,
           Some(Cube.New(Some(iso.x), Some(iso.y), Some(iso.z - height * 0.1),
                         Some(width * 0.5), Some(width * 0.5), Some(height * 0.66))),
           0.3, width, height)
  }

  /** The constructor already places the body where `_toIso` would. */
  lemma NewBodyIsSynced(x: Option<real>, y: Option<real>, z: Option<real>, width: real, height: real,
                        snapTo: (real, real) -> real)
    ensures ToIso(New(x, y, z, width, height), snapTo).body == New(x, y, z, width, height).body
  {
    PlacedBodyStays(New(x, y, z, width, height), snapTo);
  }

  /** A sync leaves a body that is already in place where it is. */
  lemma PlacedBodyStays(s: Sprite, snapTo: (real, real) -> real)
    requires BodyInPlace(s)
    ensures ToIso(s, snapTo).body == s.body
  {
    var b := s.body.value;
    var moved := ToIso(s, snapTo).body.value;
    assert moved.x == b.x && moved.y == b.y && moved.z == b.z;
    assert moved.widthX == b.widthX && moved.widthY == b.widthY && moved.height == b.height;
  }
}
