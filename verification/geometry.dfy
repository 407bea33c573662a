/** Integer screen geometry: points, sizes, detector quadrilaterals and Python's truncating division. */
module Geometry {

  /** A screen position in pixels, x to the right and y downwards. */
  datatype Point = Point(x: int, y: int)

  /** The width and height of an image in pixels. */
  datatype Size = Size(w: nat, h: nat)

  /** A text-detector bounding quadrilateral; corner 0 is the top-left and corner 2 the bottom-right. */
  datatype Quad = Quad(c0: Point, c1: Point, c2: Point, c3: Point)

  function Max(a: int, b: int): int {
    if a >= b then a else b
  }

  /**
   Python's `int(a / b)` for integers and a positive divisor: exact division
   followed by truncation toward zero (unlike Dafny's `/`, which rounds down).
   */
  function TruncDiv(a: int, b: int): (q: int)
    requires b > 0
    ensures 0 <= a ==> 0 <= q * b <= a < q * b + b
    ensures a < 0 ==> q * b - b < a <= q * b <= 0
  {
    if a >= 0 then
      var q := a / b;
      assert q * b + a % b == a;
      q
    else
      var q := (-a) / b;
      assert q * b + (-a) % b == -a;
      assert (-q) * b == -(q * b);
      -q
  }

  /** `int((a + b) / 2)`: the midpoint of two coordinates, truncated toward zero. */
  function Midpoint(a: int, b: int): (m: int)
    ensures a <= b ==> a <= m <= b
    ensures b <= a ==> b <= m <= a
  {
    TruncDiv(a + b, 2)
  }

  /** The centre of a detector box: per axis, the truncated midpoint of corners 0 and 2. */
  function Centre(q: Quad): Point {
    Point(Midpoint(q.c0.x, q.c2.x), Midpoint(q.c0.y, q.c2.y))
  }

  /** The centre lies between corner 0 and corner 2 on each axis. */
  lemma CentreBetweenCorners(q: Quad)
    ensures q.c0.x <= q.c2.x ==> q.c0.x <= Centre(q).x <= q.c2.x
    ensures q.c0.y <= q.c2.y ==> q.c0.y <= Centre(q).y <= q.c2.y
    ensures q.c2.x <= q.c0.x ==> q.c2.x <= Centre(q).x <= q.c0.x
    ensures q.c2.y <= q.c0.y ==> q.c2.y <= Centre(q).y <= q.c0.y
  {
  }

  /** The box ((100,100),(150,100),(150,140),(100,140)) has centre (125,120). */
  lemma CentreExample()
    ensures Centre(Quad(Point(100, 100), Point(150, 100), Point(150, 140), Point(100, 140))) == Point(125, 120)
  {
  }
}
