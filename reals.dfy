/** Real-number helpers: sums over sequences, absolute value, integer powers and
    the transcendental functions of numpy, which the model treats as given
    functions constrained only by the laws that the proofs rely on. */
module Reals {

  function Abs(x: real): (r: real)
    ensures r >= 0.0 && (r == x || r == -x)
  {
    if x < 0.0 then -x else x
  }

  /** numpy's `np.sum` on a one-dimensional array. */
  function Sum(s: seq<real>): real
  {
    if s == [] then 0.0 else Sum(s[..|s| - 1]) + s[|s| - 1]
  }

  lemma {:induction false} SumAppend(s: seq<real>, x: real)
    ensures Sum(s + [x]) == Sum(s) + x
  {
    assert (s + [x])[..|s + [x]| - 1] == s;
  }

  lemma {:induction false} SumNonNegative(s: seq<real>)
    requires forall i :: 0 <= i < |s| ==> s[i] >= 0.0
    ensures Sum(s) >= 0.0
  {
    if s != [] {
      SumNonNegative(s[..|s| - 1]);
    }
  }

  /** A sum of non-negative terms is zero only when every term is zero. */
  lemma {:induction false} SumZeroOnlyIfAllZero(s: seq<real>)
    requires forall i :: 0 <= i < |s| ==> s[i] >= 0.0
    requires Sum(s) == 0.0
    ensures forall i :: 0 <= i < |s| ==> s[i] == 0.0
  {
    if s != [] {
      var t := s[..|s| - 1];
      SumNonNegative(t);
      assert Sum(t) == 0.0 && s[|s| - 1] == 0.0;
      SumZeroOnlyIfAllZero(t);
      forall i | 0 <= i < |s| ensures s[i] == 0.0 {
        if i < |s| - 1 { assert s[i] == t[i]; }
      }
    }
  }

  lemma {:induction false} SumPositive(s: seq<real>)
    requires |s| > 0
    requires forall i :: 0 <= i < |s| ==> s[i] > 0.0
    ensures Sum(s) > 0.0
  {
    var t := s[..|s| - 1];
    SumNonNegative(t);
  }

  lemma MulNonNegative(a: real, b: real)
    requires a >= 0.0 && b >= 0.0
    ensures a * b >= 0.0
  {
  }

  lemma MulPositive(a: real, b: real)
    requires a > 0.0 && b > 0.0
    ensures a * b > 0.0
  {
  }

  lemma MulLess(a: real, b: real, c: real)
    requires a < b && c > 0.0
    ensures a * c < b * c
  {
    MulPositive(b - a, c);
  }

  lemma DivMulCancel(a: real, b: real)
    requires b != 0.0
    ensures (a / b) * b == a
  {
  }

  lemma DivNonNegative(a: real, b: real)
    requires a >= 0.0 && b > 0.0
    ensures a / b >= 0.0
  {
  }

  lemma DivSelf(a: real)
    requires a != 0.0
    ensures a / a == 1.0
  {
  }

  lemma MulDivCancel(a: real, b: real)
    requires a != 0.0
    ensures a * b / a == b
  {
  }

  /** Python's `math.ceil`, the length of `np.arange(start, stop, step)` being
      `ceil((stop - start) / step)`. */
  function Ceil(x: real): (c: int)
    ensures x <= c as real < x + 1.0
  {
    -((-x).Floor)
  }

  /** Elementwise scaling, numpy's `c * s`. */
  function Scale(c: real, s: seq<real>): (r: seq<real>)
    ensures |r| == |s|
    ensures forall i :: 0 <= i < |s| ==> r[i] == c * s[i]
  {
    seq(|s|, i requires 0 <= i < |s| => c * s[i])
  }

  lemma {:induction false} SumScale(c: real, s: seq<real>)
    ensures Sum(Scale(c, s)) == c * Sum(s)
  {
    if s != [] {
      var t := s[..|s| - 1];
      assert forall i :: 0 <= i < |t| ==> Scale(c, s)[..|s| - 1][i] == Scale(c, t)[i];
      assert Scale(c, s)[..|s| - 1] == Scale(c, t);
      SumScale(c, t);
    }
  }

  /** A sum of zeros is zero. */
  lemma {:induction false} SumZeros(s: seq<real>)
    requires forall i :: 0 <= i < |s| ==> s[i] == 0.0
    ensures Sum(s) == 0.0
  {
    if s != [] {
      SumZeros(s[..|s| - 1]);
    }
  }

  /** Two sequences that agree pointwise have the same sum. */
  lemma {:induction false} SumPointwise(s: seq<real>, t: seq<real>)
    requires |s| == |t|
    requires forall i :: 0 <= i < |s| ==> s[i] == t[i]
    ensures Sum(s) == Sum(t)
  {
    assert s == t;
  }

  /** `x ** n` for a natural exponent, with `0 ** 0 == 1` as in numpy. */
  function Pow(x: real, n: nat): real
  {
    if n == 0 then 1.0 else Pow(x, n - 1) * x
  }

  lemma {:induction false} PowPositive(x: real, n: nat)
    requires x > 0.0
    ensures Pow(x, n) > 0.0
  {
    if n > 0 {
      PowPositive(x, n - 1);
      MulPositive(Pow(x, n - 1), x);
    }
  }

  lemma {:induction false} PowNonZero(x: real, n: nat)
    requires x != 0.0
    ensures Pow(x, n) != 0.0
  {
    if n > 0 {
      PowNonZero(x, n - 1);
      assert Pow(x, n) == Pow(x, n - 1) * x;
    }
  }

  /** A square is non-negative, and zero only at zero. */
  lemma SquareNonNegative(x: real)
    ensures Pow(x, 2) >= 0.0
    ensures Pow(x, 2) == 0.0 <==> x == 0.0
  {
    assert Pow(x, 1) == x;
    assert Pow(x, 2) == x * x;
    if x > 0.0 {
      MulPositive(x, x);
    } else if x < 0.0 {
      MulPositive(-x, -x);
      assert (-x) * (-x) == x * x;
    }
  }

  /** `x**2`, with what is known about squares. */
  function Square(x: real): (r: real)
    ensures r >= 0.0 && (r == 0.0 <==> x == 0.0)
  {
    SquareNonNegative(x);
    Pow(x, 2)
  }

  lemma MulAssoc(a: real, b: real, c: real)
    ensures a * (b * c) == (a * b) * c
  {
  }

  lemma {:induction false} PowAdd(x: real, a: nat, b: nat)
    ensures Pow(x, a) * Pow(x, b) == Pow(x, a + b)
  {
    if b > 0 {
      PowAdd(x, a, b - 1);
      MulAssoc(Pow(x, a), Pow(x, b - 1), x);
    }
  }

  /** Multiplication as a named term, so that the power law below has a trigger. */
  function Mul(x: real, y: real): real
  {
    x * y
  }

  /** numpy's elementary functions, given as values. */
  datatype Transcendentals = Transcendentals(
    exp: real -> real,
    log: real -> real,
    sqrt: real -> real,
    pow: (real, real) -> real,
    sin: real -> real,
    cos: real -> real,
    pi: real)

  /** The laws of the real functions that the proofs of this model need. */
  ghost predicate Lawful(m: Transcendentals)
  {
    && m.pi > 3.0
    && m.exp(0.0) == 1.0
    && (forall x :: m.exp(x) > 0.0)
    && (forall x :: x >= 0.0 ==> m.sqrt(x) >= 0.0 && m.sqrt(x) * m.sqrt(x) == x)
    && (forall x, y :: x > 0.0 ==> m.pow(x, y) > 0.0)
    && (forall d :: m.pow(1.0, d) == 1.0)
    && (forall x :: m.pow(x, 0.0) == 1.0)
    && (forall x, y, d :: x > 0.0 && y > 0.0 ==> m.pow(Mul(x, y), d) == m.pow(x, d) * m.pow(y, d))
    && (forall x, d :: x > 0.0 ==> m.pow(m.sqrt(x), d) == m.pow(x, d / 2.0))
  }
}
