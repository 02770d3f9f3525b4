/**
 * Reference definitions of the reductions the fields compute with
 * accumulator loops: sums, sums of absolute values and of squares, and
 * running maxima and minima that start from a sentinel.  Every fold runs
 * left to right, as the loops do, so a loop invariant `acc == F(s[..i])`
 * advances by one element per iteration.
 */
module Reductions {

  /** The largest finite double, DBL_MAX. */
  const DblMax: real := 179769313486231570814527423731704356798070567525844996598917476803157260780028538760589558632766878171540458953514382464234321326889464182768467546703537516986049910576551282076245490090389328944075868508455133942304583236903222948165808559332123348274797826204144723168738177180919299881250404026184124858368.0

  function Abs(x: real): (r: real)
    ensures r >= 0.0 && (r == x || r == -x)
  {
    if x < 0.0 then -x else x
  }

  function Sq(x: real): real
  {
    x * x
  }

  lemma SqNonNegative(x: real)
    ensures Sq(x) >= 0.0
  {
    if x < 0.0 {
      MulNegative(x, x);
    } else if x > 0.0 {
      MulPositive(x, x);
    }
  }

  lemma MulPositive(x: real, y: real)
    requires x > 0.0 && y > 0.0
    ensures x * y > 0.0
  {
  }

  lemma MulNegative(x: real, y: real)
    requires x < 0.0 && y < 0.0
    ensures x * y > 0.0
  {
  }

  function Max(a: real, b: real): real
  {
    if a < b then b else a
  }

  function Min(a: real, b: real): real
  {
    if b < a then b else a
  }

  /** Sum of the elements, accumulated left to right. */
  function Sum(s: seq<real>): real
  {
    if s == [] then 0.0 else Sum(s[..|s| - 1]) + s[|s| - 1]
  }

  /** Sum of the absolute values (the 1-norm). */
  function SumAbs(s: seq<real>): real
  {
    if s == [] then 0.0 else SumAbs(s[..|s| - 1]) + Abs(s[|s| - 1])
  }

  /** Sum of the squares (the squared 2-norm). */
  function SumSquares(s: seq<real>): real
  {
    if s == [] then 0.0 else SumSquares(s[..|s| - 1]) + Sq(s[|s| - 1])
  }

  /** Running maximum starting from the sentinel init. */
  function MaxFrom(init: real, s: seq<real>): real
  {
    if s == [] then init else Max(MaxFrom(init, s[..|s| - 1]), s[|s| - 1])
  }

  /** Running minimum starting from the sentinel init. */
  function MinFrom(init: real, s: seq<real>): real
  {
    if s == [] then init else Min(MinFrom(init, s[..|s| - 1]), s[|s| - 1])
  }

  /** Running maximum of absolute values starting from the sentinel init. */
  function MaxAbsFrom(init: real, s: seq<real>): real
  {
    if s == [] then init else Max(MaxAbsFrom(init, s[..|s| - 1]), Abs(s[|s| - 1]))
  }

  /** The running maximum bounds the sentinel and every element, and is one of them. */
  lemma {:induction false} MaxFromIsMaximum(init: real, s: seq<real>)
    ensures init <= MaxFrom(init, s)
    ensures forall k :: 0 <= k < |s| ==> s[k] <= MaxFrom(init, s)
    ensures MaxFrom(init, s) == init || exists k :: 0 <= k < |s| && s[k] == MaxFrom(init, s)
  {
    if s != [] {
      var p := s[..|s| - 1];
      MaxFromIsMaximum(init, p);
      assert forall k :: 0 <= k < |p| ==> s[k] == p[k];
      if MaxFrom(init, p) != init {
        var k :| 0 <= k < |p| && p[k] == MaxFrom(init, p);
        assert s[k] == p[k];
      }
    }
  }

  /** The running minimum is bounded by the sentinel and every element, and is one of them. */
  lemma {:induction false} MinFromIsMinimum(init: real, s: seq<real>)
    ensures MinFrom(init, s) <= init
    ensures forall k :: 0 <= k < |s| ==> MinFrom(init, s) <= s[k]
    ensures MinFrom(init, s) == init || exists k :: 0 <= k < |s| && s[k] == MinFrom(init, s)
  {
    if s != [] {
      var p := s[..|s| - 1];
      MinFromIsMinimum(init, p);
      assert forall k :: 0 <= k < |p| ==> s[k] == p[k];
      if MinFrom(init, p) != init {
        var k :| 0 <= k < |p| && p[k] == MinFrom(init, p);
        assert s[k] == p[k];
      }
    }
  }

  /**
   * With the sentinel -1 the running maximum of absolute values is -1 exactly
   * for the empty buffer, and otherwise the largest absolute value.
   */
  lemma {:induction false} MaxAbsFromMinusOne(s: seq<real>)
    ensures s == [] <==> MaxAbsFrom(-1.0, s) == -1.0
    ensures s != [] ==> exists k :: 0 <= k < |s| && Abs(s[k]) == MaxAbsFrom(-1.0, s)
    ensures forall k :: 0 <= k < |s| ==> Abs(s[k]) <= MaxAbsFrom(-1.0, s)
  {
    if s != [] {
      var p := s[..|s| - 1];
      MaxAbsFromMinusOne(p);
      assert forall k :: 0 <= k < |p| ==> s[k] == p[k];
      if p != [] {
        var k :| 0 <= k < |p| && Abs(p[k]) == MaxAbsFrom(-1.0, p);
        assert Abs(s[k]) == Abs(p[k]);
      }
    }
  }

  /** The 1-norm is non-negative and bounds the absolute value of the sum. */
  lemma {:induction false} SumAbsBoundsSum(s: seq<real>)
    ensures SumAbs(s) >= 0.0
    ensures -SumAbs(s) <= Sum(s) <= SumAbs(s)
  {
    if s != [] {
      SumAbsBoundsSum(s[..|s| - 1]);
    }
  }

  /** The squared 2-norm is non-negative. */
  lemma {:induction false} SumSquaresNonNegative(s: seq<real>)
    ensures SumSquares(s) >= 0.0
  {
    if s != [] {
      SumSquaresNonNegative(s[..|s| - 1]);
      SqNonNegative(s[|s| - 1]);
    }
  }

  /** Summation is additive over concatenation. */
  lemma {:induction false} SumAppend(s: seq<real>, t: seq<real>)
    ensures Sum(s + t) == Sum(s) + Sum(t)
  {
    if t != [] {
      var u := s + t;
      assert u[..|u| - 1] == s + t[..|t| - 1];
      assert u[|u| - 1] == t[|t| - 1];
      SumAppend(s, t[..|t| - 1]);
    } else {
      assert s + t == s;
    }
  }

  /** Overwriting one element changes the sum by the difference. */
  lemma SumUpdate(s: seq<real>, p: nat, v: real)
    requires p < |s|
    ensures Sum(s[p := v]) == Sum(s) - s[p] + v
  {
    assert s == s[..p] + [s[p]] + s[p + 1..];
    assert s[p := v] == s[..p] + [v] + s[p + 1..];
    SumAppend(s[..p] + [s[p]], s[p + 1..]);
    SumAppend(s[..p], [s[p]]);
    SumAppend(s[..p] + [v], s[p + 1..]);
    SumAppend(s[..p], [v]);
    assert Sum([s[p]]) == s[p] by {
      assert [s[p]][..0] == [];
    }
    assert Sum([v]) == v by {
      assert [v][..0] == [];
    }
  }

  /** A buffer filled with v sums to n * v. */
  lemma {:induction false} SumOfConstant(s: seq<real>, v: real)
    requires forall k :: 0 <= k < |s| ==> s[k] == v
    ensures Sum(s) == (|s| as real) * v
  {
    if s != [] {
      SumOfConstant(s[..|s| - 1], v);
    }
  }

  /** sqrt is the non-negative square root on the non-negative reals. */
  ghost predicate IsSqrt(sqrt: real -> real)
  {
    forall x: real :: x >= 0.0 ==> sqrt(x) >= 0.0 && sqrt(x) * sqrt(x) == x
  }

  /**
   * The root mean square of n values and their 2-norm describe the same
   * energy: rms^2 * n == norm2^2, and both are non-negative.
   */
  lemma RmsFromNorm2(sqrt: real -> real, s: seq<real>, n: nat)
    requires IsSqrt(sqrt) && n > 0
    ensures sqrt(SumSquares(s) / (n as real)) >= 0.0 && sqrt(SumSquares(s)) >= 0.0
    ensures sqrt(SumSquares(s) / (n as real)) * sqrt(SumSquares(s) / (n as real)) * (n as real) ==
            sqrt(SumSquares(s)) * sqrt(SumSquares(s))
  {
    var e := SumSquares(s);
    SumSquaresNonNegative(s);
    var m := e / (n as real);
    assert m >= 0.0;
    assert sqrt(m) * sqrt(m) == m;
    assert sqrt(e) * sqrt(e) == e;
    assert m * (n as real) == e;
  }
}
