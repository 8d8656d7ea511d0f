/** Plain coordinate records: a 3D point (the library's Point3, also used for
    per-axis vectors such as velocity and bounce) and a 2D screen point. */
module Points {
  import opened Numerics

  /** The three axes of the isometric world; Z is vertical. */
  datatype Axis = X | Y | Z

  datatype Point3 = Point3(x: real, y: real, z: real) {

    /** The component along axis `a`. */
    function Get(a: Axis): real {
      match a
      case X => x
      case Y => y
      case Z => z
    }

    /** This point with the component along `a` replaced by `v`. */
    function With(a: Axis, v: real): (p: Point3)
      ensures p.Get(a) == v
      ensures forall b: Axis :: b != a ==> p.Get(b) == Get(b)
    {
      match a
      case X => this.(x := v)
      case Y => this.(y := v)
      case Z => this.(z := v)
    }
  }

  datatype Point2 = Point2(x: real, y: real)

  const Origin3 := Point3(0.0, 0.0, 0.0)

  /** The Point3 constructor: absent or zero coordinates become 0. */
  function MakePoint3(x: Option<real>, y: Option<real>, z: Option<real>): Point3 {
    Point3(OrReal(x, 0.0), OrReal(y, 0.0), OrReal(z, 0.0))
  }
}
