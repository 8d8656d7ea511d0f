/** The axis-aligned box primitive (the library's Cube): an origin corner
    (x, y, z) at the bottom-back and three extents.  Every setter of the
    source mutates the box in place; here each returns the updated value. */
module Cube {
  import opened Numerics
  import opened Points

  datatype Box = Box(x: real, y: real, z: real, widthX: real, widthY: real, height: real) {

    function FrontX(): real { x + widthX }
    function FrontY(): real { y + widthY }
    function Top(): real { z + height }

    /** A box with an extent that is zero or negative: it contains no point
        and intersects no box. */
    predicate Degenerate() {
      widthX <= 0.0 || widthY <= 0.0 || height <= 0.0
    }

    predicate NonNegative() {
      widthX >= 0.0 && widthY >= 0.0 && height >= 0.0
    }
  }

  // ---------------------------------------------------------------------
  // Construction and copies
  // ---------------------------------------------------------------------

  /** The constructor: every absent (or zero) argument becomes 0. */
  function New(x: Option<real>, y: Option<real>, z: Option<real>,
               widthX: Option<real>, widthY: Option<real>, height: Option<real>): (r: Box)
    ensures x.Some? ==> r.x == x.value
    ensures y.Some? ==> r.y == y.value
    ensures z.Some? ==> r.z == z.value
    ensures widthX.Some? ==> r.widthX == widthX.value
    ensures widthY.Some? ==> r.widthY == widthY.value
    ensures height.Some? ==> r.height == height.value
    ensures x.None? ==> r.x == 0.0
    ensures y.None? ==> r.y == 0.0
    ensures z.None? ==> r.z == 0.0
    ensures widthX.None? ==> r.widthX == 0.0
    ensures widthY.None? ==> r.widthY == 0.0
    ensures height.None? ==> r.height == 0.0
  {
    Box(OrReal(x, 0.0), OrReal(y, 0.0), OrReal(z, 0.0),
        OrReal(widthX, 0.0), OrReal(widthY, 0.0), OrReal(height, 0.0))
  }

  /** A cube built with no arguments is the empty box at the origin: it
      contains no point and intersects nothing. */
  lemma NewWithoutArgumentsIsEmpty(other: Box, p: Point3)
    ensures New(None, None, None, None, None, None) == Box(0.0, 0.0, 0.0, 0.0, 0.0, 0.0)
    ensures !Contains(New(None, None, None, None, None, None), p.x, p.y, p.z)
    ensures !Intersects(New(None, None, None, None, None, None), other)
  {
  }

  function SetTo(b: Box, x: real, y: real, z: real, widthX: real, widthY: real, height: real): (r: Box)
    ensures r.x == x && r.y == y && r.z == z
    ensures r.widthX == widthX && r.widthY == widthY && r.height == height
  {
    b.(x := x, y := y, z := z, widthX := widthX, widthY := widthY, height := height)
  }

  /** `b.copyFrom(source)`: b takes every field of source. */
  function CopyFrom(b: Box, source: Box): (r: Box)
    ensures r == source
  {
    SetTo(b, source.x, source.y, source.z, source.widthX, source.widthY, source.height)
  }

  /** `b.copyTo(dest)`: dest takes every field of b and is returned. */
  function CopyTo(b: Box, dest: Box): (r: Box)
    ensures r == b
  {
    dest.(x := b.x, y := b.y, z := b.z, widthX := b.widthX, widthY := b.widthY, height := b.height)
  }

  /** `Cube.clone(a, output)`: a fresh cube when no output is given,
      otherwise the output box set to a's fields. */
  function Clone(a: Box, output: Option<Box>): (r: Box)
    ensures r == a
  {
    if output.None? then New(Some(a.x), Some(a.y), Some(a.z), Some(a.widthX), Some(a.widthY), Some(a.height))
    else SetTo(output.value, a.x, a.y, a.z, a.widthX, a.widthY, a.height)
  }

  /** `Cube.size`: the extents as a point. */
  function Size(a: Box): (r: Point3)
    ensures r.x == a.widthX && r.y == a.widthY && r.z == a.height
  {
    MakePoint3(Some(a.widthX), Some(a.widthY), Some(a.height))
  }

  // ---------------------------------------------------------------------
  // Containment and intersection
  // ---------------------------------------------------------------------

  /** `Cube.contains`, with the front faces read as frontX/frontY.  (The
      source reads `a.right` and `a.back`, which a Cube does not define; see
      `AsWritten.ContainsAsWritten`.)  Bounds are inclusive. */
  function Contains(a: Box, px: real, py: real, pz: real): (r: bool)
    ensures a.Degenerate() ==> !r
    ensures r ==> a.x <= px <= a.FrontX() && a.y <= py <= a.FrontY() && a.z <= pz <= a.Top()
    ensures !a.Degenerate() && a.x <= px <= a.FrontX() && a.y <= py <= a.FrontY() && a.z <= pz <= a.Top() ==> r
  {
    if a.widthX <= 0.0 || a.widthY <= 0.0 || a.height <= 0.0 then false
    else px >= a.x && px <= a.FrontX() && py >= a.y && py <= a.FrontY() && pz >= a.z && pz <= a.Top()
  }

  /** `Cube.intersects`: inclusive on every face, false for degenerate boxes. */
  function Intersects(a: Box, b: Box): (r: bool)
    ensures a.Degenerate() || b.Degenerate() ==> !r
  {
    if a.widthX <= 0.0 || a.widthY <= 0.0 || a.height <= 0.0 || b.widthX <= 0.0 || b.widthY <= 0.0 || b.height <= 0.0 then false
    else !(a.FrontX() < b.x || a.FrontY() < b.y || a.x > b.FrontX() || a.y > b.FrontY() || a.z > b.Top() || a.Top() < b.z)
  }

  lemma IntersectsSymmetric(a: Box, b: Box)
    ensures Intersects(a, b) == Intersects(b, a)
  {
  }

  /** Inclusive: two proper boxes that only share a face (here a's front-x
      face is b's back-x face) still intersect. */
  lemma TouchingFacesIntersect(a: Box, b: Box)
    requires !a.Degenerate() && !b.Degenerate()
    requires a.FrontX() == b.x
    requires a.y == b.y && a.z == b.z
    ensures Intersects(a, b)
  {
  }

  /** Two boxes intersect exactly when some point lies in both. */
  lemma IntersectsIffCommonPoint(a: Box, b: Box)
    ensures Intersects(a, b) <==> exists p: Point3 :: Contains(a, p.x, p.y, p.z) && Contains(b, p.x, p.y, p.z)
  {
    if Intersects(a, b) {
      var p := Point3(if a.x < b.x then b.x else a.x, if a.y < b.y then b.y else a.y, if a.z < b.z then b.z else a.z);
      assert Contains(a, p.x, p.y, p.z) && Contains(b, p.x, p.y, p.z);
    }
  }

  /** `a` lies wholly before `b` on one axis: both of a's faces on that
      axis are strictly below b's origin coordinate. */
  predicate Before(a: Box, b: Box) {
    || (a.x < b.x && a.FrontX() < b.x)
    || (a.y < b.y && a.FrontY() < b.y)
    || (a.z < b.z && a.Top() < b.z)
  }

  /** A plane strictly between the two boxes on some axis. */
  predicate Separated(a: Box, b: Box) {
    Before(a, b) || Before(b, a)
  }

  lemma SeparatedDoNotIntersect(a: Box, b: Box)
    ensures Separated(a, b) ==> !Intersects(a, b) && !Intersects(b, a)
  {
  }

  // ---------------------------------------------------------------------
  // Face accessors
  // ---------------------------------------------------------------------

  /** Setting the front-x face keeps the origin and clamps the width at 0. */
  function SetFrontX(b: Box, value: real): (r: Box)
    ensures r.x == b.x && r.widthX >= 0.0
    ensures value > b.x ==> r.FrontX() == value
    ensures value <= b.x ==> r.widthX == 0.0
    ensures r.y == b.y && r.z == b.z && r.widthY == b.widthY && r.height == b.height
  {
    if value <= b.x then b.(widthX := 0.0) else b.(widthX := value - b.x)
  }

  function SetFrontY(b: Box, value: real): (r: Box)
    ensures r.y == b.y && r.widthY >= 0.0
    ensures value > b.y ==> r.FrontY() == value
    ensures value <= b.y ==> r.widthY == 0.0
    ensures r.x == b.x && r.z == b.z && r.widthX == b.widthX && r.height == b.height
  {
    if value <= b.y then b.(widthY := 0.0) else b.(widthY := value - b.y)
  }

  function SetTop(b: Box, value: real): (r: Box)
    ensures r.z == b.z && r.height >= 0.0
    ensures value > b.z ==> r.Top() == value
    ensures value <= b.z ==> r.height == 0.0
    ensures r.x == b.x && r.y == b.y && r.widthX == b.widthX && r.widthY == b.widthY
  {
    if value <= b.z then b.(height := 0.0) else b.(height := value - b.z)
  }

  /** Setting the back-x face moves the origin and keeps the front face
      where it was, unless the new origin passes it (then the width is 0). */
  function SetBackX(b: Box, value: real): (r: Box)
    ensures r.x == value && r.widthX >= 0.0
    ensures value < b.FrontX() ==> r.FrontX() == b.FrontX()
    ensures value >= b.FrontX() ==> r.widthX == 0.0
    ensures r.y == b.y && r.z == b.z && r.widthY == b.widthY && r.height == b.height
  {
    var w := if value >= b.FrontX() then 0.0 else b.FrontX() - value;
    b.(widthX := w, x := value)
  }

  function SetBackY(b: Box, value: real): (r: Box)
    ensures r.y == value && r.widthY >= 0.0
    ensures value < b.FrontY() ==> r.FrontY() == b.FrontY()
    ensures value >= b.FrontY() ==> r.widthY == 0.0
    ensures r.x == b.x && r.z == b.z && r.widthX == b.widthX && r.height == b.height
  {
    var w := if value >= b.FrontY() then 0.0 else b.FrontY() - value;
    b.(widthY := w, y := value)
  }

  function SetBottom(b: Box, value: real): (r: Box)
    ensures r.z == value && r.height >= 0.0
    ensures value < b.Top() ==> r.Top() == b.Top()
    ensures value >= b.Top() ==> r.height == 0.0
    ensures r.x == b.x && r.y == b.y && r.widthX == b.widthX && r.widthY == b.widthY
  {
    var h := if value >= b.Top() then 0.0 else b.Top() - value;
    b.(height := h, z := value)
  }

  /** Writing a box's own faces back leaves a proper box unchanged; on a
      box with a negative extent it clamps that extent to 0. */
  lemma FaceSettersRoundTrip(b: Box)
    ensures !b.Degenerate() ==> SetFrontX(b, b.FrontX()) == b && SetBackX(b, b.x) == b
    ensures !b.Degenerate() ==> SetFrontY(b, b.FrontY()) == b && SetBackY(b, b.y) == b
    ensures !b.Degenerate() ==> SetTop(b, b.Top()) == b && SetBottom(b, b.z) == b
    ensures SetFrontX(b, b.FrontX()).widthX == if b.widthX < 0.0 then 0.0 else b.widthX
  {
  }

  // ---------------------------------------------------------------------
  // Centre
  // ---------------------------------------------------------------------

  /** Half extents are rounded with `Math.round`. */
  function HalfWidthX(b: Box): (r: real)
    ensures b.widthX * 0.5 - 0.5 < r <= b.widthX * 0.5 + 0.5
  {
    Round(b.widthX * 0.5) as real
  }

  function HalfWidthY(b: Box): (r: real)
    ensures b.widthY * 0.5 - 0.5 < r <= b.widthY * 0.5 + 0.5
  {
    Round(b.widthY * 0.5) as real
  }

  function HalfHeight(b: Box): (r: real)
    ensures b.height * 0.5 - 0.5 < r <= b.height * 0.5 + 0.5
  {
    Round(b.height * 0.5) as real
  }

  /** The centre getters: the origin plus the rounded half extent, which
      never leaves a box of non-negative extent. */
  function CenterX(b: Box): (r: real)
    ensures b.widthX >= 0.0 ==> b.x <= r <= b.FrontX()
  {
    HalfWithin(b.widthX);
    b.x + HalfWidthX(b)
  }

  function CenterY(b: Box): (r: real)
    ensures b.widthY >= 0.0 ==> b.y <= r <= b.FrontY()
  {
    HalfWithin(b.widthY);
    b.y + HalfWidthY(b)
  }

  function CenterZ(b: Box): (r: real)
    ensures b.height >= 0.0 ==> b.z <= r <= b.Top()
  {
    HalfWithin(b.height);
    b.z + HalfHeight(b)
  }

  /** Half of a non-negative extent, rounded, lies between 0 and the extent. */
  lemma HalfWithin(w: real)
    ensures w >= 0.0 ==> 0.0 <= Round(w * 0.5) as real <= w
  {
  }

  /** The centre setter moves the box without resizing it, and the centre
      getter then reads back the value written. */
  function SetCenterX(b: Box, value: real): (r: Box)
    ensures CenterX(r) == value
    ensures r.widthX == b.widthX && r.y == b.y && r.z == b.z && r.widthY == b.widthY && r.height == b.height
  {
    b.(x := value - HalfWidthX(b))
  }

  function SetCenterY(b: Box, value: real): (r: Box)
    ensures CenterY(r) == value
    ensures r.widthY == b.widthY && r.x == b.x && r.z == b.z && r.widthX == b.widthX && r.height == b.height
  {
    b.(y := value - HalfWidthY(b))
  }

  function SetCenterZ(b: Box, value: real): (r: Box)
    ensures CenterZ(r) == value
    ensures r.height == b.height && r.x == b.x && r.y == b.y && r.widthX == b.widthX && r.widthY == b.widthY
  {
    b.(z := value - HalfHeight(b))
  }

  /** The rounded centre lies within half a unit of the geometric centre. */
  lemma CenterNearMidpoint(b: Box)
    ensures b.x + b.widthX * 0.5 - 0.5 < CenterX(b) <= b.x + b.widthX * 0.5 + 0.5
    ensures b.y + b.widthY * 0.5 - 0.5 < CenterY(b) <= b.y + b.widthY * 0.5 + 0.5
    ensures b.z + b.height * 0.5 - 0.5 < CenterZ(b) <= b.z + b.height * 0.5 + 0.5
  {
  }

  // ---------------------------------------------------------------------
  // Volume and corners
  // ---------------------------------------------------------------------

  function Volume(b: Box): (r: real)
    ensures b.NonNegative() ==> r >= 0.0
    ensures b.NonNegative() && r > 0.0 ==> !b.Degenerate()
    ensures b.NonNegative() && b.Degenerate() ==> r == 0.0
  {
    VolumeFacts(b);
    b.widthX * b.widthY * b.height
  }

  lemma VolumeFacts(b: Box)
    ensures b.NonNegative() ==> b.widthX * b.widthY * b.height >= 0.0
    ensures b.NonNegative() && b.Degenerate() ==> b.widthX * b.widthY * b.height == 0.0
  {
    if b.NonNegative() {
      assert b.widthX * b.widthY >= 0.0;
      if b.widthX == 0.0 || b.widthY == 0.0 {
        assert b.widthX * b.widthY == 0.0;
      }
    }
  }

  /** The eight corners in the source's order: bit 4 of the index selects
      the front-x face, bit 2 the front-y face, bit 1 the top. */
  function GetCorners(b: Box): (r: seq<Point3>)
    ensures |r| == 8
    ensures r[0] == Point3(b.x, b.y, b.z)
    ensures r[7] == Point3(b.FrontX(), b.FrontY(), b.Top())
    ensures forall i | 0 <= i < 8 ::
      r[i] == Point3(if i >= 4 then b.FrontX() else b.x,
                     if i % 4 >= 2 then b.FrontY() else b.y,
                     if i % 2 == 1 then b.Top() else b.z)
  {
    [Point3(b.x, b.y, b.z),
     Point3(b.x, b.y, b.z + b.height),
     Point3(b.x, b.y + b.widthY, b.z),
     Point3(b.x, b.y + b.widthY, b.z + b.height),
     Point3(b.x + b.widthX, b.y, b.z),
     Point3(b.x + b.widthX, b.y, b.z + b.height),
     Point3(b.x + b.widthX, b.y + b.widthY, b.z),
     Point3(b.x + b.widthX, b.y + b.widthY, b.z + b.height)]
  }

  /** Every corner of a proper box is inside it, and the corners are
      pairwise distinct. */
  lemma CornersContained(b: Box)
    requires !b.Degenerate()
    ensures forall i | 0 <= i < 8 :: Contains(b, GetCorners(b)[i].x, GetCorners(b)[i].y, GetCorners(b)[i].z)
    ensures forall i, j | 0 <= i < j < 8 :: GetCorners(b)[i] != GetCorners(b)[j]
  {
    var c := GetCorners(b);
    forall i | 0 <= i < 8
      ensures Contains(b, c[i].x, c[i].y, c[i].z)
    {
    }
  }
}
