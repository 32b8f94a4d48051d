/** Facts about products and quotients of reals, each by itself. */
module RealArithmetic {

  lemma ProductNonNegative(a: real, b: real)
    requires 0.0 <= a && 0.0 <= b
    ensures 0.0 <= a * b
  {
  }

  lemma ProductPositive(a: real, b: real)
    requires 0.0 < a && 0.0 < b
    ensures 0.0 < a * b
  {
  }

  lemma Distributes(x: real, y: real, d: real)
    ensures (x - y) * d == x * d - y * d
  {
  }

  lemma QuotientTimes(x: real, y: real)
    requires y != 0.0
    ensures (x / y) * y == x
  {
  }

  /** Putting the larger factor first is worth no less. */
  lemma ProductsSwap(small: real, large: real, near: real, far: real)
    requires small <= large && far <= near
    ensures small * near + large * far <= large * near + small * far
  {
    ProductNonNegative(large - small, near - far);
    Distributes(large, small, near - far);
    Distributes(near, far, large);
    Distributes(near, far, small);
    assert large * (near - far) == (near - far) * large;
    assert small * (near - far) == (near - far) * small;
  }

  lemma ProductsGrow(x: real, y: real, d: real)
    requires d > 0.0
    ensures (x <= y ==> x * d <= y * d) && (x < y ==> x * d < y * d)
  {
    Distributes(y, x, d);
    if x < y {
      ProductPositive(y - x, d);
    }
  }

  /** A quotient compares with one as its terms compare. */
  lemma QuotientAgainstOne(x: real, y: real)
    requires 0.0 < y
    ensures (x < y ==> x / y < 1.0) && (x == y ==> x / y == 1.0) && (y < x ==> 1.0 < x / y)
    ensures 0.0 <= x ==> 0.0 <= x / y
  {
    var q := x / y;
    QuotientTimes(x, y);
    ProductsGrow(1.0, q, y);
    ProductsGrow(q, 1.0, y);
    ProductsGrow(q, 0.0, y);
  }
}
