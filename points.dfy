/** Points of the plane: the mutable data point, its value, the centroid
    value, and the distance between a point and a centroid. */
module Points {

  /** A data point. Its coordinates are set once by a constructor; the
      assignment pass of the k-means engine overwrites `cluster` (the source's `label`) in place.
      `-1` means "not assigned to any cluster yet". */
  class Point {
    var x: real
    var y: real
    var cluster: int

    /** A freshly loaded point, not yet assigned to a cluster. */
    constructor (x: real, y: real)
      ensures this.x == x && this.y == y && cluster == -1
    {
      this.x := x;
      this.y := y;
      this.cluster := -1;
    }

    /** A point created with an explicit cluster label. */
    constructor Labelled(x: real, y: real, cluster: int)
      ensures this.x == x && this.y == y && this.cluster == cluster
    {
      this.x := x;
      this.y := y;
      this.cluster := cluster;
    }

    /** The value the point holds right now. */
    function Value(): Sample
      reads this
    {
      Sample(x, y, cluster)
    }
  }

  /** The value of a data point at one moment: coordinates and cluster. */
  datatype Sample = Sample(x: real, y: real, cluster: int)

  /** A mean (centroid). The engine never changes a mean once it is built.
      A mean computed for a cluster with no points is 0.0/0.0 in IEEE
      arithmetic, so both coordinates are NaN; `NaN` stands for it. */
  datatype Centroid = Finite(x: real, y: real, cluster: int) | NaN(cluster: int)

  /** Square of the Euclidean distance between (x1, y1) and (x2, y2). */
  function SqDistance(x1: real, y1: real, x2: real, y2: real): (d: real)
    ensures d >= 0.0
    ensures d == 0.0 <==> x1 == x2 && y1 == y2
  {
    Square(x1 - x2) + Square(y1 - y2)
  }

  /** The distance itself is the square root of `SqDistance`. Comparing the
      squares orders two distances exactly as comparing the distances does,
      so the model compares squares and needs no square root. */
  lemma SqrtMonotone(d1: real, d2: real, s1: real, s2: real)
    requires d1 >= 0.0 && d2 >= 0.0
    requires Square(d1) == s1 && Square(d2) == s2
    ensures d1 < d2 <==> s1 < s2
    ensures d1 == d2 <==> s1 == s2
  {
    if d1 < d2 {
      SquareIncreasing(d1, d2);
    } else if d2 < d1 {
      SquareIncreasing(d2, d1);
    }
  }

  // Products are kept behind `Mul`, with the few facts the proofs need
  // proved once below, so that the solver reasons about them linearly.

  function Mul(a: real, b: real): real { a * b }

  function Square(a: real): (s: real)
    ensures s >= 0.0
    ensures s == 0.0 <==> a == 0.0
  {
    if a > 0.0 then MulPositive(a, a); Mul(a, a)
    else if a < 0.0 then MulPositive(-a, -a); MulNegate(a, a); Mul(a, a)
    else Mul(a, a)
  }

  lemma MulPositive(a: real, b: real)
    requires a > 0.0 && b > 0.0
    ensures Mul(a, b) > 0.0
  {
  }

  lemma MulNegate(a: real, b: real)
    ensures Mul(-a, -b) == Mul(a, b)
  {
  }

  lemma SquareIncreasing(a: real, b: real)
    requires 0.0 <= a < b
    ensures Square(a) < Square(b)
  {
    assert Mul(a, b) - Mul(a, a) == Mul(a, b - a);
    assert Mul(b, b) - Mul(a, b) == Mul(b, b - a);
    MulPositive(b, b - a);
    if a > 0.0 {
      MulPositive(a, b - a);
    }
  }
}
