/** Exact real arithmetic the model needs in place of Python floats: natural
    powers, the principal n-th root as a constrained parameter, and the constant pi. */
module RealMath {

  /** The decimal `repr(math.pi)` prints; `math.pi` and `numpy.pi` are this double. */
  const Pi: real := 3.141592653589793

  function Abs(x: real): real
  {
    if x < 0.0 then -x else x
  }

  /** x raised to a natural power. */
  function Pow(x: real, n: nat): real
  {
    if n == 0 then 1.0 else x * Pow(x, n - 1)
  }

  /** `root` returns the principal n-th root of every non-negative real. Python's
      `x ** (k / n)` on a float is this root taken to the power k. No Dafny
      expression computes it, so every operation that needs it takes it as a
      parameter and requires this predicate of it. */
  ghost predicate IsRoot(root: (real, int) -> real)
  {
    forall x: real, n: int :: 0.0 <= x && 0 < n ==> 0.0 <= root(x, n) && Pow(root(x, n), n) == x
  }

  lemma PowSquare(x: real)
    ensures Pow(x, 2) == x * x
  {
    assert Pow(x, 1) == x * Pow(x, 0);
    assert Pow(x, 2) == x * Pow(x, 1);
  }

  lemma SquareSign(x: real)
    ensures 0.0 <= Pow(x, 2)
    ensures x != 0.0 ==> 0.0 < Pow(x, 2)
  {
    if x < 0.0 {
      PowPositive(-x, 2);
      PowSquare(x);
      PowSquare(-x);
      assert x * x == (-x) * (-x);
    } else if 0.0 < x {
      PowPositive(x, 2);
    } else {
      assert Pow(x, 2) == 0.0 * Pow(x, 1);
    }
  }

  lemma PowCube(x: real)
    ensures Pow(x, 3) == x * x * x
  {
    assert Pow(x, 3) == x * Pow(x, 2);
    PowSquare(x);
  }

  lemma PowFourth(x: real)
    ensures Pow(x, 4) == (x * x) * (x * x)
  {
    assert Pow(x, 4) == x * Pow(x, 3);
    assert Pow(x, 3) == x * Pow(x, 2);
    PowSquare(x);
  }

  lemma {:induction false} PowNonNegative(x: real, n: nat)
    requires 0.0 <= x
    ensures 0.0 <= Pow(x, n)
  {
    if n > 0 {
      PowNonNegative(x, n - 1);
    }
  }

  lemma {:induction false} PowPositive(x: real, n: nat)
    requires 0.0 < x
    ensures 0.0 < Pow(x, n)
  {
    if n > 0 {
      PowPositive(x, n - 1);
    }
  }

  lemma {:induction false} PowOne(n: nat)
    ensures Pow(1.0, n) == 1.0
  {
    if n > 0 {
      PowOne(n - 1);
    }
  }

  lemma PowZero(n: nat)
    requires 0 < n
    ensures Pow(0.0, n) == 0.0
  {
  }

  /** The n-th power of a product is the product of the n-th powers. */
  lemma {:induction false} PowProduct(x: real, y: real, n: nat)
    ensures Pow(x * y, n) == Pow(x, n) * Pow(y, n)
  {
    if n > 0 {
      PowProduct(x, y, n - 1);
      var px, py, pxy := Pow(x, n - 1), Pow(y, n - 1), Pow(x * y, n - 1);
      assert Pow(x, n) == x * px;
      assert Pow(y, n) == y * py;
      assert Pow(x * y, n) == (x * y) * pxy;
      assert pxy == px * py;
      assert (x * y) * (px * py) == (x * px) * (y * py);
    }
  }

  /** On the non-negative reals a positive power is strictly increasing. */
  lemma {:induction false} PowStrictlyIncreasing(x: real, y: real, n: nat)
    requires 0.0 <= x < y && 0 < n
    ensures Pow(x, n) < Pow(y, n)
  {
    if n == 1 {
      assert Pow(x, 1) == x && Pow(y, 1) == y;
    } else {
      PowStrictlyIncreasing(x, y, n - 1);
      PowNonNegative(x, n - 1);
      var px, py := Pow(x, n - 1), Pow(y, n - 1);
      assert x * px <= x * py by {
        assert x * (py - px) >= 0.0;
      }
      assert x * py < y * py by {
        assert (y - x) * py > 0.0;
      }
    }
  }

  lemma PowIncreasing(x: real, y: real, n: nat)
    requires 0.0 <= x <= y
    ensures Pow(x, n) <= Pow(y, n)
  {
    if x < y && 0 < n {
      PowStrictlyIncreasing(x, y, n);
    }
  }

  /** A non-negative y whose n-th power is x is the root of x. */
  lemma RootUnique(root: (real, int) -> real, x: real, y: real, n: nat)
    requires IsRoot(root)
    requires 0.0 <= y && 0 < n && Pow(y, n) == x
    ensures root(x, n) == y
  {
    PowNonNegative(y, n);
    var r := root(x, n);
    assert 0.0 <= r && Pow(r, n) == x;
    if r < y {
      PowStrictlyIncreasing(r, y, n);
    } else if y < r {
      PowStrictlyIncreasing(y, r, n);
    }
  }

  lemma RootStrictlyIncreasing(root: (real, int) -> real, x: real, y: real, n: nat)
    requires IsRoot(root)
    requires 0.0 <= x < y && 0 < n
    ensures root(x, n) < root(y, n)
  {
    var rx, ry := root(x, n), root(y, n);
    assert 0.0 <= rx && Pow(rx, n) == x;
    assert 0.0 <= ry && Pow(ry, n) == y;
    if ry <= rx {
      PowIncreasing(ry, rx, n);
    }
  }

  lemma RootOfOne(root: (real, int) -> real, n: nat)
    requires IsRoot(root) && 0 < n
    ensures root(1.0, n) == 1.0
  {
    PowOne(n);
    RootUnique(root, 1.0, 1.0, n);
  }

  /** A product of positive factors grows strictly when one factor grows and none shrinks. */
  lemma MulStrictlyIncreasing(x1: real, y1: real, x2: real, y2: real)
    requires 0.0 < x1 <= x2 && 0.0 < y1 <= y2
    requires x1 < x2 || y1 < y2
    ensures x1 * y1 < x2 * y2
  {
    assert x1 * y1 <= x1 * y2 by { assert x1 * (y2 - y1) >= 0.0; }
    assert x1 * y2 <= x2 * y2 by { assert (x2 - x1) * y2 >= 0.0; }
    if x1 < x2 {
      assert x1 * y2 < x2 * y2 by { assert (x2 - x1) * y2 > 0.0; }
    } else {
      assert x1 * y1 < x1 * y2 by { assert x1 * (y2 - y1) > 0.0; }
    }
  }

  lemma MulIncreasing(x1: real, y1: real, x2: real, y2: real)
    requires 0.0 <= x1 <= x2 && 0.0 <= y1 <= y2
    ensures x1 * y1 <= x2 * y2
  {
    assert x1 * y1 <= x1 * y2 by { assert x1 * (y2 - y1) >= 0.0; }
    assert x1 * y2 <= x2 * y2 by { assert (x2 - x1) * y2 >= 0.0; }
  }

  /** A positive factor can be cancelled from a strict inequality. */
  lemma CancelPositive(x: real, y: real, c: real)
    requires 0.0 < c && x * c < y * c
    ensures x < y
  {
    if y <= x {
      MulIncreasing(y, c, x, c);
      assert false;
    }
  }
}
