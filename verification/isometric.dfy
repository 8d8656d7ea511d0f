/** The axonometric projection from iso-space (x, y on the ground, z up)
    to the 2D screen, with an anchor that offsets the result by a fraction
    of the game world's size. */
module Isometric {
  import opened Numerics
  import opened Points

  /** The classic 2:1 ratio, the default. */
  const Classic: real := 0.5

  /** The ratio of a true isometric projection, `atan(0.5)` to double
      precision; it is offered to callers and never used internally. */
  const TrueRatio: real := 0.6154797093263624

  datatype Projector = Projector(projectionRatio: real, anchor: Point2)

  /** The constructor: an absent or zero ratio falls back to `Classic`, and
      the anchor centres the origin horizontally at the top of the world. */
  function New(projectionRatio: Option<real>): (p: Projector)
    ensures projectionRatio.Some? && projectionRatio.value != 0.0 ==> p.projectionRatio == projectionRatio.value
    ensures projectionRatio.None? || projectionRatio.value == 0.0 ==> p.projectionRatio == Classic
    ensures p.projectionRatio != 0.0
    ensures p.anchor == Point2(0.5, 0.0)
  {
    Projector(OrReal(projectionRatio, Classic), Point2(0.5, 0.0))
  }

  /** The screen offset of the anchor for a world of the given size. */
  function AnchorOffset(p: Projector, worldWidth: real, worldHeight: real): Point2 {
    Point2(worldWidth * p.anchor.x, worldHeight * p.anchor.y)
  }

  /** `projectXY`: the projection of the point's ground position, ignoring
      its height. */
  function ProjectXY(p: Projector, worldWidth: real, worldHeight: real, q: Point3): (out: Point2)
    ensures out.x - AnchorOffset(p, worldWidth, worldHeight).x == q.x - q.y
    ensures out.y - AnchorOffset(p, worldWidth, worldHeight).y == (q.x + q.y) * p.projectionRatio
  {
    var base := Point2(q.x - q.y, (q.x + q.y) * p.projectionRatio);
    var off := AnchorOffset(p, worldWidth, worldHeight);
    Point2(base.x + off.x, base.y + off.y)
  }

  /** `project`: the same map, with the height lifting the point up the
      screen. */
  function Project(p: Projector, worldWidth: real, worldHeight: real, q: Point3): (out: Point2)
    ensures out.x == q.x - q.y + worldWidth * p.anchor.x
    ensures out.y == (q.x + q.y) * p.projectionRatio - q.z + worldHeight * p.anchor.y
  {
    var base := Point2(q.x - q.y, (q.x + q.y) * p.projectionRatio - q.z);
    var off := AnchorOffset(p, worldWidth, worldHeight);
    Point2(base.x + off.x, base.y + off.y)
  }

  /** The two projections agree on x, and on y they differ by the height. */
  lemma ProjectIsProjectXYLifted(p: Projector, worldWidth: real, worldHeight: real, q: Point3)
    ensures Project(p, worldWidth, worldHeight, q).x == ProjectXY(p, worldWidth, worldHeight, q).x
    ensures Project(p, worldWidth, worldHeight, q).y == ProjectXY(p, worldWidth, worldHeight, q).y - q.z
  {
  }

  /** Raising a point by h moves it up the screen by exactly h. */
  lemma RaisingLiftsOnScreen(p: Projector, worldWidth: real, worldHeight: real, q: Point3, h: real)
    ensures Project(p, worldWidth, worldHeight, q.(z := q.z + h)).x == Project(p, worldWidth, worldHeight, q).x
    ensures Project(p, worldWidth, worldHeight, q.(z := q.z + h)).y == Project(p, worldWidth, worldHeight, q).y - h
  {
  }

  /** Moving along the ground diagonal (t, t, 0) keeps the screen column. */
  lemma DiagonalKeepsColumn(p: Projector, worldWidth: real, worldHeight: real, q: Point3, t: real)
    ensures Project(p, worldWidth, worldHeight, Point3(q.x + t, q.y + t, q.z)).x == Project(p, worldWidth, worldHeight, q).x
  {
  }

  /** The ground point a screen point shows, for a non-zero ratio: the
      inverse of `projectXY`. */
  function Unproject(p: Projector, worldWidth: real, worldHeight: real, s: Point2): (q: Point3)
    requires p.projectionRatio != 0.0
    ensures q.z == 0.0
  {
    var off := AnchorOffset(p, worldWidth, worldHeight);
    var d := s.x - off.x;
    var sum := (s.y - off.y) / p.projectionRatio;
    Point3((sum + d) / 2.0, (sum - d) / 2.0, 0.0)
  }

  /** `projectXY` loses only the height: the ground position is recovered
      from the screen point. */
  lemma UnprojectRecoversGround(p: Projector, worldWidth: real, worldHeight: real, q: Point3)
    requires p.projectionRatio != 0.0
    ensures Unproject(p, worldWidth, worldHeight, ProjectXY(p, worldWidth, worldHeight, q)) == q.(z := 0.0)
  {
    var s := ProjectXY(p, worldWidth, worldHeight, q);
    var off := AnchorOffset(p, worldWidth, worldHeight);
    assert (s.y - off.y) / p.projectionRatio == q.x + q.y;
  }

  /** And every screen point is the projection of its ground point. */
  lemma ProjectXYOfUnproject(p: Projector, worldWidth: real, worldHeight: real, s: Point2)
    requires p.projectionRatio != 0.0
    ensures ProjectXY(p, worldWidth, worldHeight, Unproject(p, worldWidth, worldHeight, s)) == s
  {
    var off := AnchorOffset(p, worldWidth, worldHeight);
    var sum := (s.y - off.y) / p.projectionRatio;
    assert sum * p.projectionRatio == s.y - off.y;
  }
}
