/** Five places where the source does something other than what it evidently
    means, modelled as written, each with an input that shows the
    difference from the corrected definition the rest of the model uses. */
module AsWritten {
  import opened Numerics
  import opened Points
  import Cube
  import Octree
  import IsoArcade

  /** A call that either returns or throws a TypeError (a method called on
      `undefined`). */
  datatype Thrown<T> = Returned(value: T) | TypeError

  // ---------------------------------------------------------------------
  // Octree: the "has split" test
  // ---------------------------------------------------------------------

  /** Some box of the list fits an octant of `bd`. */
  predicate AnyFits(bd: Octree.Bounds, boxes: seq<Cube.Box>) {
    exists i | 0 <= i < |boxes| :: Octree.GetIndex(bd, boxes[i]) != -1
  }

  /** Appending a box that fits no octant does not change whether any fits. */
  lemma AnyFitsAppend(bd: Octree.Bounds, boxes: seq<Cube.Box>, b: Cube.Box)
    ensures Octree.GetIndex(bd, b) == -1 ==> (AnyFits(bd, boxes + [b]) <==> AnyFits(bd, boxes))
  {
    if Octree.GetIndex(bd, b) == -1 && AnyFits(bd, boxes + [b]) {
      var i :| 0 <= i < |boxes + [b]| && Octree.GetIndex(bd, (boxes + [b])[i]) != -1;
      assert i < |boxes| && (boxes + [b])[i] == boxes[i];
    }
    if AnyFits(bd, boxes) {
      var i :| 0 <= i < |boxes| && Octree.GetIndex(bd, boxes[i]) != -1;
      assert (boxes + [b])[i] == boxes[i];
    }
  }

  /** `insert` as written, on a node without children.  `nodes[0] !== null`
      holds (the entry is `undefined`), so a box that fits an octant is sent
      to `nodes[index]`, which does not exist; and `nodes[0] === null` never
      holds, so `split` is never called and the redistribution loop throws
      on the first box that fits.  Without a split no node ever has
      children, so this is every node the written code builds. */
  function InsertAsWritten(t: Octree.Node, b: Cube.Box): (r: Thrown<Octree.Node>)
    requires t.nodes == []
    ensures r.Returned? <==>
              Octree.GetIndex(t.bounds, b) == -1
              && !(|t.objects| + 1 > t.maxObjects && t.level < t.maxLevels && AnyFits(t.bounds, t.objects))
    ensures r.Returned? ==> r.value.nodes == [] && r.value.objects == t.objects + [b]
  {
    if Octree.GetIndex(t.bounds, b) != -1 then TypeError
    else
      var objects := t.objects + [b];
      AnyFitsAppend(t.bounds, t.objects, b);
      if |objects| > t.maxObjects && t.level < t.maxLevels && AnyFits(t.bounds, objects) then TypeError
      else Returned(t.(objects := objects))
  }

  /** On a fresh root, inserting a small box inside the first octant throws,
      where the corrected insert stores it. */
  lemma InsertAsWrittenThrowsOnFreshTree()
    ensures var t := Octree.Reset(0.0, 0.0, 0.0, 100.0, 100.0, 100.0, None, None, None);
            var b := Cube.Box(10.0, 10.0, 10.0, 1.0, 1.0, 1.0);
            && InsertAsWritten(t, b) == TypeError
            && Octree.Insert(t, b).objects == [b]
  {
    var t := Octree.Reset(0.0, 0.0, 0.0, 100.0, 100.0, 100.0, None, None, None);
    var b := Cube.Box(10.0, 10.0, 10.0, 1.0, 1.0, 1.0);
    assert t.bounds.frontX == 50.0 && t.bounds.frontY == 50.0 && t.bounds.top == 50.0;
    assert Octree.GetIndex(t.bounds, b) == 0;
  }

  // ---------------------------------------------------------------------
  // Octree: the children's parameters
  // ---------------------------------------------------------------------

  /** `split` as written: the children are built with `(this.maxLevels,
      this.level + 1)` in the constructor's `(maxObjects, maxLevels)` slots
      and no level, so each child is a level-0 root whose object cap is the
      parent's level cap. */
  function SplitAsWritten(t: Octree.Node): (r: Octree.Node)
    ensures |r.nodes| == 8
    ensures forall k | 0 <= k < 8 :: r.nodes[k].level == 0
    ensures t.maxLevels != 0 ==> forall k | 0 <= k < 8 :: r.nodes[k].maxObjects == t.maxLevels
    ensures t.level + 1 != 0 ==> forall k | 0 <= k < 8 :: r.nodes[k].maxLevels == t.level + 1
  {
    var bd := t.bounds;
    var mo, ml := Some(t.maxLevels), Some(t.level + 1);
    t.(nodes := [
      Octree.Reset(bd.x, bd.y, bd.z, bd.subWidthX, bd.subWidthY, bd.subHeight, mo, ml, None),
      Octree.Reset(bd.frontX, bd.y, bd.z, bd.subWidthX, bd.subWidthY, bd.subHeight, mo, ml, None),
      Octree.Reset(bd.x, bd.frontY, bd.z, bd.subWidthX, bd.subWidthY, bd.subHeight, mo, ml, None),
      Octree.Reset(bd.frontX, bd.frontY, bd.z, bd.subWidthX, bd.subWidthY, bd.subHeight, mo, ml, None),
      Octree.Reset(bd.x, bd.y, bd.top, bd.subWidthX, bd.subWidthY, bd.subHeight, mo, ml, None),
      Octree.Reset(bd.frontX, bd.y, bd.top, bd.subWidthX, bd.subWidthY, bd.subHeight, mo, ml, None),
      Octree.Reset(bd.x, bd.frontY, bd.top, bd.subWidthX, bd.subWidthY, bd.subHeight, mo, ml, None),
      Octree.Reset(bd.frontX, bd.frontY, bd.top, bd.subWidthX, bd.subWidthY, bd.subHeight, mo, ml, None)
    ])
  }

  /** For the default root (10 objects, 4 levels, level 0) the written split
      gives children with a cap of 4 objects and 1 level, at level 0, so the
      depth bound the level count is meant to give is lost; the corrected
      split keeps the caps and puts the children at level 1. */
  lemma SplitAsWrittenLosesLevels()
    ensures var t := Octree.Reset(0.0, 0.0, 0.0, 100.0, 100.0, 100.0, None, None, None);
            && SplitAsWritten(t).nodes[0].level == 0
            && SplitAsWritten(t).nodes[0].maxObjects == 4
            && SplitAsWritten(t).nodes[0].maxLevels == 1
            && !Octree.WellFormed(SplitAsWritten(t))
            && Octree.Split(t).nodes[0].level == 1
            && Octree.Split(t).nodes[0].maxObjects == 10
            && Octree.WellFormed(Octree.Split(t))
  {
  }

  // ---------------------------------------------------------------------
  // Cube: contains
  // ---------------------------------------------------------------------

  /** JavaScript's `x <= undefined`: every ordering comparison with
      `undefined` is false. */
  const LessEqUndefined: bool := false

  /** `Cube.contains` as written: `a.right` and `a.back` are undefined on a
      Cube, so the comparisons against them are false. */
  function ContainsAsWritten(a: Cube.Box, px: real, py: real, pz: real): (r: bool)
    ensures !r
  {
    if a.widthX <= 0.0 || a.widthY <= 0.0 || a.height <= 0.0 then false
    else px >= a.x && LessEqUndefined && py >= a.y && LessEqUndefined && pz >= a.z && pz <= a.Top()
  }

  /** The centre of a 10-unit cube is not contained as written, and is with
      the front faces read as intended. */
  lemma ContainsAsWrittenMissesCentre()
    ensures !ContainsAsWritten(Cube.Box(0.0, 0.0, 0.0, 10.0, 10.0, 10.0), 5.0, 5.0, 5.0)
    ensures Cube.Contains(Cube.Box(0.0, 0.0, 0.0, 10.0, 10.0, 10.0), 5.0, 5.0, 5.0)
  {
  }

  // ---------------------------------------------------------------------
  // separateZ: the opt-out flag
  // ---------------------------------------------------------------------

  /** The kept-overlap step of `separateZ` as written: the first body's
      opt-out is read from its y flag. */
  function ApplyZAsWritten(c: IsoArcade.Contact, overlapOnly: bool, sqrt: real -> real): (o: IsoArcade.Outcome)
    requires c.b1.props.mass > 0.0 && c.b2.props.mass > 0.0
    ensures o.separated
    ensures c.b1.props.customSeparate.y ==> o.b1.position == c.b1.position && o.b2.position == c.b2.position
  {
    var r1 := IsoArcade.RecordOverlap(c.b1, Z, c.overlap);
    var r2 := IsoArcade.RecordOverlap(c.b2, Z, c.overlap);
    if overlapOnly || r1.props.customSeparate.y || r2.props.customSeparate.z then IsoArcade.Outcome(r1, r2, true)
    else IsoArcade.Resolve(r1, r2, Z, c.overlap, sqrt)
  }

  /** A movable pair in vertical contact where only the first body opts out
      of separating on y: as written nothing moves, while the corrected step
      pushes the first body down by half the overlap. */
  lemma ApplyZAsWrittenReadsYFlag(c: IsoArcade.Contact, sqrt: real -> real)
    requires c.b1.props.mass > 0.0 && c.b2.props.mass > 0.0
    requires !c.b1.props.immovable && !c.b2.props.immovable
    requires c.b1.props.customSeparate == Flags3Y && c.b2.props.customSeparate == NoFlags
    requires c.overlap == 2.0
    ensures ApplyZAsWritten(c, false, sqrt).b1.position == c.b1.position
    ensures IsoArcade.Apply(c, Z, false, sqrt).b1.position.z == c.b1.position.z - 1.0
  {
  }

  const Flags3Y := IsoArcade.Flags3(false, true, false)
  const NoFlags := IsoArcade.Flags3(false, false, false)

  // ---------------------------------------------------------------------
  // separateZ: the moving platform
  // ---------------------------------------------------------------------

  /** The branch of `separateZ` where only the second body moves, as
      written: the rider's x follows the platform, but the y update is
      applied to the platform itself, from the rider's own displacement. */
  function ResolveZAsWritten(b1: IsoArcade.Body, b2: IsoArcade.Body, ov: real): (o: IsoArcade.Outcome)
    requires b1.props.immovable && !b2.props.immovable
    ensures o.separated
    ensures b1.props.moves ==> o.b1.position.y == b1.position.y + (b2.position.y - b2.props.prev.y)
    ensures o.b2.position.y == b2.position.y
  {
    var moved := IsoArcade.Rebound(b2, b1, Z, ov);
    if b1.props.moves then
      IsoArcade.Outcome(
        b1.(position := b1.position.(y := b1.position.y + (b2.position.y - b2.props.prev.y))),
        moved.(position := moved.position.(x := moved.position.x + (b1.position.x - b1.props.prev.x))),
        true)
    else IsoArcade.Outcome(b1, moved, true)
  }

  /** A moving immovable platform under a rider that drifted one unit in y:
      as written the platform is shifted, which the corrected step never
      does to an immovable body. */
  lemma ResolveZAsWrittenMovesPlatform(b1: IsoArcade.Body, b2: IsoArcade.Body, ov: real, sqrt: real -> real)
    requires b1.props.immovable && !b2.props.immovable && b1.props.moves
    requires b1.props.mass > 0.0 && b2.props.mass > 0.0
    requires b2.position.y == b2.props.prev.y + 1.0
    ensures ResolveZAsWritten(b1, b2, ov).b1.position.y == b1.position.y + 1.0
    ensures IsoArcade.Resolve(b1, b2, Z, ov, sqrt).b1 == b1
  {
  }
}
