/**
 * The flat real buffer: a count of elements and one buffer behind a
 * pointer.  Every operation is a loop over the first count entries.  The
 * buffer may be longer than the count, because assignment takes the
 * source's count and copies into the existing buffer without reallocating.
 * A count of zero may come without any buffer at all.
 */
module ScalarArrays {
  import opened Cells
  import opened Reductions

  /** f applied to every element together with its index. */
  function Indexed(f: (nat, real) -> real, s: seq<real>): (r: seq<real>)
  {
    seq(|s|, k requires 0 <= k < |s| => f(k, s[k]))
  }

  /** s[k] / v for every k (operator/(double)). */
  function DivideBy(s: seq<real>, v: real): (r: seq<real>)
    requires v != 0.0
  {
    seq(|s|, k requires 0 <= k < |s| => s[k] / v)
  }

  /** sqrt of every element. */
  function SqrtEach(sqrt: real -> real, s: seq<real>): (r: seq<real>)
  {
    seq(|s|, k requires 0 <= k < |s| => sqrt(s[k]))
  }

  /** 1 / sqrt of every element. */
  function InvSqrtEach(sqrt: real -> real, s: seq<real>): (r: seq<real>)
    requires forall k :: 0 <= k < |s| ==> sqrt(s[k]) != 0.0
  {
    seq(|s|, k requires 0 <= k < |s| => 1.0 / sqrt(s[k]))
  }

  class ScalarDataArray {
    var numberOfElements: nat
    var scalarData: array?<real>

    /** A non-empty array has a buffer holding at least its elements. */
    ghost predicate Valid()
      reads this
    {
      numberOfElements > 0 ==> scalarData != null && numberOfElements <= scalarData.Length
    }

    /** The counted elements. */
    function Elements(): (r: seq<real>)
      requires Valid()
      reads this, scalarData
      ensures |r| == numberOfElements
      ensures numberOfElements > 0 ==> r == scalarData[..numberOfElements]
    {
      if numberOfElements == 0 then [] else scalarData[..numberOfElements]
    }

    /** The empty constructor: no elements and no buffer. */
    constructor Empty()
      ensures Valid() && numberOfElements == 0 && scalarData == null
    {
      numberOfElements := 0;
      scalarData := null;
    }

    /** The size constructor: a buffer of n doubles, none at all for n == 0. */
    constructor (n: nat)
      ensures Valid() && numberOfElements == n
      ensures n == 0 ==> scalarData == null
      ensures n > 0 ==> scalarData != null && fresh(scalarData) && scalarData.Length == n
    {
      numberOfElements := n;
      if n == 0 {
        scalarData := null;
      } else {
        scalarData := new real[n];
      }
    }

    /** The constructor from a plane configuration: a buffer of its physical element count. */
    constructor FromConfig(physicalElements: nat)
      ensures Valid() && numberOfElements == physicalElements
      ensures scalarData != null && fresh(scalarData) && scalarData.Length == physicalElements
    {
      numberOfElements := physicalElements;
      scalarData := new real[physicalElements];
    }

    /** The copy constructor: a new buffer of the source's count holding its elements. */
    constructor Copy(src: ScalarDataArray)
      requires src.Valid()
      ensures Valid() && numberOfElements == src.numberOfElements
      ensures scalarData != null && fresh(scalarData) && scalarData.Length == src.numberOfElements
      ensures Elements() == src.Elements()
    {
      numberOfElements := src.numberOfElements;
      var d := new real[src.numberOfElements];
      scalarData := d;
      new;
      MapInto((k: nat, x: real) => x, src.scalarData, d, src.numberOfElements);
    }

    /**
     * setup: release the buffer of a non-empty array, then hold n elements
     * in a new buffer of n doubles.
     */
    method Setup(n: nat)
      requires Valid()
      modifies this
      ensures Valid() && numberOfElements == n
      ensures scalarData != null && fresh(scalarData) && scalarData.Length == n
    {
      if numberOfElements != 0 {
        FreeBuffer();
      }
      numberOfElements := n;
      scalarData := new real[n];
    }

    /** p_free_buffer: a non-empty array loses its buffer; the count becomes zero either way. */
    method FreeBuffer()
      requires Valid()
      modifies this
      ensures Valid() && numberOfElements == 0
      ensures old(numberOfElements) != 0 ==> scalarData == null
      ensures old(numberOfElements) == 0 ==> scalarData == old(scalarData)
    {
      if numberOfElements != 0 {
        scalarData := null;
      }
      numberOfElements := 0;
    }

    /** The destructor. */
    method Destroy()
      requires Valid()
      modifies this
      ensures numberOfElements == 0
    {
      FreeBuffer();
    }

    /** physical_get(i): element i. */
    function PhysicalGet(i: nat): (r: real)
      requires Valid() && i < numberOfElements
      reads this, scalarData
      ensures r == Elements()[i]
    {
      scalarData[i]
    }

    /** set(i, v): element i becomes v, every other element stays. */
    method Set(i: nat, v: real)
      requires Valid() && i < numberOfElements
      modifies scalarData
      ensures Valid() && Elements() == old(Elements())[i := v]
      ensures PhysicalGet(i) == v
    {
      scalarData[i] := v;
    }

    /** physical_set_all(v): every element becomes v. */
    method PhysicalSetAll(v: real)
      requires Valid()
      modifies scalarData
      ensures Valid() && Elements() == Fill(numberOfElements, v)
    {
      MapInto((k: nat, x: real) => v, scalarData, scalarData, numberOfElements);
    }

    /** operator=(double). */
    method AssignValue(v: real)
      requires Valid()
      modifies scalarData
      ensures Valid() && Elements() == Fill(numberOfElements, v)
    {
      PhysicalSetAll(v);
    }

    /** operator=(int): the integer converted to a double. */
    method AssignInt(v: int)
      requires Valid()
      modifies scalarData
      ensures Valid() && Elements() == Fill(numberOfElements, v as real)
    {
      PhysicalSetAll(v as real);
    }

    /**
     * update_lambda_array_indices: element idx becomes f(idx, element idx)
     * for every counted idx; the rest of the buffer is untouched.
     */
    method UpdateLambdaArrayIndices(f: (nat, real) -> real)
      requires Valid()
      modifies scalarData
      ensures Valid() && Elements() == Indexed(f, old(Elements()))
      ensures scalarData != null ==> forall k :: numberOfElements <= k < scalarData.Length ==> scalarData[k] == old(scalarData[k])
    {
      MapInto(f, scalarData, scalarData, numberOfElements);
    }

    /**
     * operator=(array): take the source's count and copy its elements into
     * the existing buffer, which must already be long enough.
     */
    method Assign(src: ScalarDataArray)
      requires Valid() && src.Valid()
      requires src.numberOfElements > 0 ==> scalarData != null && src.numberOfElements <= scalarData.Length
      modifies this`numberOfElements, scalarData
      ensures Valid() && numberOfElements == old(src.numberOfElements)
      ensures Elements() == old(src.Elements())
    {
      ghost var s := src.Elements();
      var n := src.numberOfElements;
      numberOfElements := n;
      MapInto((k: nat, x: real) => x, src.scalarData, scalarData, n);
      assert Elements() == s;
    }

    /* ---------- element-wise operators ---------- */

    /** operator+(array). */
    method AddArray(b: ScalarDataArray) returns (out: ScalarDataArray)
      requires Valid() && b.Valid() && b.numberOfElements == numberOfElements
      ensures out.Valid() && out.Elements() == Add(Elements(), b.Elements())
    {
      out := new ScalarDataArray(numberOfElements);
      ZipInto((x: real, y: real) => x + y, scalarData, b.scalarData, out.scalarData, numberOfElements);
      assert out.Elements() == Add(Elements(), b.Elements());
    }

    /** operator-(array). */
    method SubArray(b: ScalarDataArray) returns (out: ScalarDataArray)
      requires Valid() && b.Valid() && b.numberOfElements == numberOfElements
      ensures out.Valid() && out.Elements() == Sub(Elements(), b.Elements())
    {
      out := new ScalarDataArray(numberOfElements);
      ZipInto((x: real, y: real) => x - y, scalarData, b.scalarData, out.scalarData, numberOfElements);
      assert out.Elements() == Sub(Elements(), b.Elements());
    }

    /** operator*(array). */
    method MulArray(b: ScalarDataArray) returns (out: ScalarDataArray)
      requires Valid() && b.Valid() && b.numberOfElements == numberOfElements
      ensures out.Valid() && out.Elements() == Mul(Elements(), b.Elements())
    {
      out := new ScalarDataArray(numberOfElements);
      ZipInto((x: real, y: real) => x * y, scalarData, b.scalarData, out.scalarData, numberOfElements);
      forall k | 0 <= k < numberOfElements ensures out.Elements()[k] == Mul(Elements(), b.Elements())[k] {
      }
      assert out.Elements() == Mul(Elements(), b.Elements());
    }

    /** operator/(array), for a divisor without zero elements. */
    method DivArray(b: ScalarDataArray) returns (out: ScalarDataArray)
      requires Valid() && b.Valid() && b.numberOfElements == numberOfElements && NonZero(b.Elements())
      ensures out.Valid() && out.Elements() == Quot(Elements(), b.Elements())
    {
      out := new ScalarDataArray(numberOfElements);
      ZipInto((x: real, y: real) => if y == 0.0 then 0.0 else x / y, scalarData, b.scalarData, out.scalarData, numberOfElements);
      assert out.Elements() == Quot(Elements(), b.Elements());
    }

    /** operator+=(array): b may be this array. */
    method AddAssign(b: ScalarDataArray)
      requires Valid() && b.Valid() && b.numberOfElements == numberOfElements
      modifies scalarData
      ensures Valid() && Elements() == Add(old(Elements()), old(b.Elements()))
    {
      ghost var s, t := Elements(), b.Elements();
      ZipInto((x: real, y: real) => x + y, scalarData, b.scalarData, scalarData, numberOfElements);
      assert Elements() == Add(s, t);
    }

    /** operator-=(array). */
    method SubAssign(b: ScalarDataArray)
      requires Valid() && b.Valid() && b.numberOfElements == numberOfElements
      modifies scalarData
      ensures Valid() && Elements() == Sub(old(Elements()), old(b.Elements()))
    {
      ghost var s, t := Elements(), b.Elements();
      ZipInto((x: real, y: real) => x - y, scalarData, b.scalarData, scalarData, numberOfElements);
      assert Elements() == Sub(s, t);
    }

    /** operator*=(array). */
    method MulAssign(b: ScalarDataArray)
      requires Valid() && b.Valid() && b.numberOfElements == numberOfElements
      modifies scalarData
      ensures Valid() && Elements() == Mul(old(Elements()), old(b.Elements()))
    {
      ghost var s, t := Elements(), b.Elements();
      ZipInto((x: real, y: real) => x * y, scalarData, b.scalarData, scalarData, numberOfElements);
      forall k | 0 <= k < numberOfElements ensures Elements()[k] == Mul(s, t)[k] {
      }
      assert Elements() == Mul(s, t);
    }

    /* ---------- scalar operators ---------- */

    /** operator+(double). */
    method AddValue(v: real) returns (out: ScalarDataArray)
      requires Valid()
      ensures out.Valid() && out.Elements() == AddScalar(Elements(), v)
    {
      out := new ScalarDataArray(numberOfElements);
      MapInto((k: nat, x: real) => x + v, scalarData, out.scalarData, numberOfElements);
      assert out.Elements() == AddScalar(Elements(), v);
    }

    /** operator-(double): the same as adding -v. */
    method SubValue(v: real) returns (out: ScalarDataArray)
      requires Valid()
      ensures out.Valid() && out.Elements() == AddScalar(Elements(), -v)
    {
      out := new ScalarDataArray(numberOfElements);
      MapInto((k: nat, x: real) => x - v, scalarData, out.scalarData, numberOfElements);
      assert out.Elements() == AddScalar(Elements(), -v);
    }

    /** operator*(double). */
    method MulValue(v: real) returns (out: ScalarDataArray)
      requires Valid()
      ensures out.Valid() && out.Elements() == Scale(Elements(), v)
    {
      out := new ScalarDataArray(numberOfElements);
      MapInto((k: nat, x: real) => x * v, scalarData, out.scalarData, numberOfElements);
      forall k | 0 <= k < numberOfElements ensures out.Elements()[k] == Scale(Elements(), v)[k] {
      }
      assert out.Elements() == Scale(Elements(), v);
    }

    /** operator/(double), for a non-zero divisor. */
    method DivValue(v: real) returns (out: ScalarDataArray)
      requires Valid() && v != 0.0
      ensures out.Valid() && out.Elements() == DivideBy(Elements(), v)
    {
      out := new ScalarDataArray(numberOfElements);
      MapInto((k: nat, x: real) => x / v, scalarData, out.scalarData, numberOfElements);
      assert out.Elements() == DivideBy(Elements(), v);
    }

    /** valueMinusThis(v): v - a[i]. */
    method ValueMinusThis(v: real) returns (out: ScalarDataArray)
      requires Valid()
      ensures out.Valid() && out.Elements() == ValueMinus(v, Elements())
    {
      out := new ScalarDataArray(numberOfElements);
      MapInto((k: nat, x: real) => v - x, scalarData, out.scalarData, numberOfElements);
      assert out.Elements() == ValueMinus(v, Elements());
    }

    /** valueDivThis(v): v / a[i], for an array without zero elements. */
    method ValueDivThis(v: real) returns (out: ScalarDataArray)
      requires Valid() && NonZero(Elements())
      ensures out.Valid() && out.Elements() == ValueDiv(v, Elements())
    {
      out := new ScalarDataArray(numberOfElements);
      MapInto((k: nat, x: real) => if x == 0.0 then 0.0 else v / x, scalarData, out.scalarData, numberOfElements);
      assert out.Elements() == ValueDiv(v, Elements());
    }

    /** Unary operator-. */
    method Negated() returns (out: ScalarDataArray)
      requires Valid()
      ensures out.Valid() && out.Elements() == Negate(Elements())
    {
      out := new ScalarDataArray(numberOfElements);
      MapInto((k: nat, x: real) => -x, scalarData, out.scalarData, numberOfElements);
      assert out.Elements() == Negate(Elements());
    }

    /** sqrt(): the element-wise square root. */
    method Sqrt(sqrt: real -> real) returns (out: ScalarDataArray)
      requires Valid()
      ensures out.Valid() && out.Elements() == SqrtEach(sqrt, Elements())
    {
      out := new ScalarDataArray(numberOfElements);
      MapInto((k: nat, x: real) => sqrt(x), scalarData, out.scalarData, numberOfElements);
      assert out.Elements() == SqrtEach(sqrt, Elements());
    }

    /** inv_sqrt(): 1 / sqrt of every element, where no square root is zero. */
    method InvSqrt(sqrt: real -> real) returns (out: ScalarDataArray)
      requires Valid() && forall k :: 0 <= k < numberOfElements ==> sqrt(Elements()[k]) != 0.0
      ensures out.Valid() && out.Elements() == InvSqrtEach(sqrt, Elements())
    {
      out := new ScalarDataArray(numberOfElements);
      MapInto((k: nat, x: real) => if sqrt(x) == 0.0 then 0.0 else 1.0 / sqrt(x), scalarData, out.scalarData, numberOfElements);
      assert out.Elements() == InvSqrtEach(sqrt, Elements());
    }

    /** operator+=(double). */
    method AddAssignValue(v: real)
      requires Valid()
      modifies scalarData
      ensures Valid() && Elements() == AddScalar(old(Elements()), v)
    {
      ghost var s := Elements();
      MapInto((k: nat, x: real) => x + v, scalarData, scalarData, numberOfElements);
      assert Elements() == AddScalar(s, v);
    }

    /** operator*=(double). */
    method MulAssignValue(v: real)
      requires Valid()
      modifies scalarData
      ensures Valid() && Elements() == Scale(old(Elements()), v)
    {
      ghost var s := Elements();
      MapInto((k: nat, x: real) => x * v, scalarData, scalarData, numberOfElements);
      forall k | 0 <= k < numberOfElements
        ensures Elements()[k] == Scale(s, v)[k]
      {
      }
      assert Elements() == Scale(s, v);
    }

    /** operator/=(double), for a non-zero divisor. */
    method DivAssignValue(v: real)
      requires Valid() && v != 0.0
      modifies scalarData
      ensures Valid() && Elements() == DivideBy(old(Elements()), v)
    {
      ghost var s := Elements();
      MapInto((k: nat, x: real) => x / v, scalarData, scalarData, numberOfElements);
      assert Elements() == DivideBy(s, v);
    }

    /* ---------- reductions ---------- */

    /** reduce_maxAbs: the largest |a[i]|, -1 for an empty array. */
    method ReduceMaxAbs() returns (r: real)
      requires Valid()
      ensures r == MaxAbsFrom(-1.0, Elements())
    {
      r := MaxAbsPrefix(scalarData, numberOfElements);
    }

    /** reduce_max: the largest element, -DBL_MAX for an empty array. */
    method ReduceMax() returns (r: real)
      requires Valid()
      ensures r == MaxFrom(-DblMax, Elements())
    {
      r := MaxPrefix(scalarData, numberOfElements);
    }

    /** reduce_min: the smallest element, DBL_MAX for an empty array. */
    method ReduceMin() returns (r: real)
      requires Valid()
      ensures r == MinFrom(DblMax, Elements())
    {
      r := MinPrefix(scalarData, numberOfElements);
    }

    /** reduce_sum. */
    method ReduceSum() returns (r: real)
      requires Valid()
      ensures r == Sum(Elements())
    {
      r := SumPrefix(scalarData, numberOfElements);
    }

    /** reduce_sum_quad: the Kahan-compensated sum. */
    method ReduceSumQuad() returns (r: real)
      requires Valid()
      ensures r == Sum(Elements())
    {
      r := KahanSumPrefix(scalarData, numberOfElements);
    }

    /** reduce_norm1: the sum of absolute values. */
    method ReduceNorm1() returns (r: real)
      requires Valid()
      ensures r == SumAbs(Elements())
    {
      r := SumAbsPrefix(scalarData, numberOfElements);
    }

    /** reduce_norm1_quad: the Kahan-compensated sum of absolute values. */
    method ReduceNorm1Quad() returns (r: real)
      requires Valid()
      ensures r == SumAbs(Elements())
    {
      r := KahanSumAbsPrefix(scalarData, numberOfElements);
    }

    /** reduce_norm2: the square root of the sum of squares. */
    method ReduceNorm2(sqrt: real -> real) returns (r: real)
      requires Valid()
      ensures r == sqrt(SumSquares(Elements()))
    {
      var sum := SumSquaresPrefix(scalarData, numberOfElements);
      r := sqrt(sum);
    }

    /** reduce_norm2_quad: the same with Kahan-compensated summation. */
    method ReduceNorm2Quad(sqrt: real -> real) returns (r: real)
      requires Valid()
      ensures r == sqrt(SumSquares(Elements()))
    {
      var sum := KahanSumSquaresPrefix(scalarData, numberOfElements);
      r := sqrt(sum);
    }

    /** reduce_rms: the root mean square of a non-empty array. */
    method ReduceRms(sqrt: real -> real) returns (r: real)
      requires Valid() && numberOfElements > 0
      ensures r == sqrt(SumSquares(Elements()) / (numberOfElements as real))
    {
      var sum := SumSquaresPrefix(scalarData, numberOfElements);
      r := sqrt(sum / (numberOfElements as real));
    }

    /** reduce_rms_quad: the same with Kahan-compensated summation. */
    method ReduceRmsQuad(sqrt: real -> real) returns (r: real)
      requires Valid() && numberOfElements > 0
      ensures r == sqrt(SumSquares(Elements()) / (numberOfElements as real))
    {
      var sum := KahanSumSquaresPrefix(scalarData, numberOfElements);
      r := sqrt(sum / (numberOfElements as real));
    }
  }

  /* ---------- the free operators with the value on the left ---------- */

  /** v * a: the same as a * v. */
  method ValueTimesArray(v: real, a: ScalarDataArray) returns (out: ScalarDataArray)
    requires a.Valid()
    ensures out.Valid() && out.Elements() == Scale(a.Elements(), v)
  {
    out := a.MulValue(v);
  }

  /** v - a: valueMinusThis. */
  method ValueMinusArray(v: real, a: ScalarDataArray) returns (out: ScalarDataArray)
    requires a.Valid()
    ensures out.Valid() && out.Elements() == ValueMinus(v, a.Elements())
  {
    out := a.ValueMinusThis(v);
  }

  /** v + a: a + v. */
  method ValuePlusArray(v: real, a: ScalarDataArray) returns (out: ScalarDataArray)
    requires a.Valid()
    ensures out.Valid() && out.Elements() == AddScalar(a.Elements(), v)
  {
    out := a.AddValue(v);
  }

  /** v / a: valueDivThis. */
  method ValueDivArray(v: real, a: ScalarDataArray) returns (out: ScalarDataArray)
    requires a.Valid() && NonZero(a.Elements())
    ensures out.Valid() && out.Elements() == ValueDiv(v, a.Elements())
  {
    out := a.ValueDivThis(v);
  }

  /* ---------- properties of the element-wise operations ---------- */

  /** v - (v - a) == a. */
  lemma ValueMinusInvolutive(v: real, s: seq<real>)
    ensures ValueMinus(v, ValueMinus(v, s)) == s
  {
    var r := ValueMinus(v, ValueMinus(v, s));
    forall k | 0 <= k < |s| ensures r[k] == s[k] {
    }
  }

  /** v / (v / a) == a for a non-zero v and an array without zeros. */
  lemma ValueDivInvolutive(v: real, s: seq<real>)
    requires v != 0.0 && NonZero(s)
    ensures NonZero(ValueDiv(v, s))
    ensures ValueDiv(v, ValueDiv(v, s)) == s
  {
    var q := ValueDiv(v, s);
    forall k | 0 <= k < |s| ensures q[k] != 0.0 {
      assert q[k] * s[k] == v;
    }
    var r := ValueDiv(v, q);
    forall k | 0 <= k < |s| ensures r[k] == s[k] {
      assert q[k] * s[k] == v;
    }
  }

  /** Dividing by v undoes multiplying by v. */
  lemma DivideByUndoesScale(s: seq<real>, v: real)
    requires v != 0.0
    ensures DivideBy(Scale(s, v), v) == s
  {
    var r := DivideBy(Scale(s, v), v);
    forall k | 0 <= k < |s| ensures r[k] == s[k] {
      assert r[k] == (s[k] * v) / v;
    }
  }

  /** The square roots of non-negative elements square back to the elements. */
  lemma SqrtEachSquares(sqrt: real -> real, s: seq<real>)
    requires IsSqrt(sqrt) && forall k :: 0 <= k < |s| ==> s[k] >= 0.0
    ensures Mul(SqrtEach(sqrt, s), SqrtEach(sqrt, s)) == s
  {
    var r := Mul(SqrtEach(sqrt, s), SqrtEach(sqrt, s));
    forall k | 0 <= k < |s| ensures r[k] == s[k] {
      assert sqrt(s[k]) * sqrt(s[k]) == s[k];
    }
  }

  /** The inverse square roots are the reciprocals of the square roots. */
  lemma InvSqrtTimesSqrt(sqrt: real -> real, s: seq<real>)
    requires forall k :: 0 <= k < |s| ==> sqrt(s[k]) != 0.0
    ensures Mul(InvSqrtEach(sqrt, s), SqrtEach(sqrt, s)) == Fill(|s|, 1.0)
  {
    var r := Mul(InvSqrtEach(sqrt, s), SqrtEach(sqrt, s));
    forall k | 0 <= k < |s| ensures r[k] == 1.0 {
      assert r[k] == (1.0 / sqrt(s[k])) * sqrt(s[k]);
    }
  }

  /** Updating with a callback that ignores its arguments is physical_set_all. */
  lemma ConstantUpdateIsSetAll(v: real, s: seq<real>)
    ensures Indexed((k: nat, x: real) => v, s) == Fill(|s|, v)
  {
  }

  /* ---------- the element loops ---------- */

  /**
   * dst[i] = f(i, a[i]) for every i < n; dst may be a.  Nothing past n
   * changes.
   */
  method MapInto(f: (nat, real) -> real, a: array?<real>, dst: array?<real>, n: nat)
    requires n > 0 ==> a != null && dst != null && n <= a.Length && n <= dst.Length
    modifies dst
    ensures n > 0 ==> dst[..n] == Indexed(f, old(a[..n]))
    ensures dst != null ==> forall k :: n <= k < dst.Length ==> dst[k] == old(dst[k])
  {
    if n == 0 {
      return;
    }
    var i := 0;
    while i < n
      invariant 0 <= i <= n
      invariant forall k :: 0 <= k < i ==> dst[k] == f(k, old(a[k]))
      invariant forall k :: i <= k < dst.Length ==> dst[k] == old(dst[k])
      invariant forall k :: i <= k < a.Length ==> a[k] == old(a[k])
    {
      dst[i] := f(i, a[i]);
      i := i + 1;
    }
    assert forall k :: 0 <= k < n ==> dst[..n][k] == Indexed(f, old(a[..n]))[k];
  }

  /** dst[i] = f(a[i], b[i]) for every i < n; dst may be a or b. */
  method ZipInto(f: (real, real) -> real, a: array?<real>, b: array?<real>, dst: array?<real>, n: nat)
    requires n > 0 ==> a != null && b != null && dst != null && n <= a.Length && n <= b.Length && n <= dst.Length
    modifies dst
    ensures n > 0 ==> |old(a[..n])| == |old(b[..n])| == n
    ensures n > 0 ==> forall k :: 0 <= k < n ==> dst[k] == f(old(a[k]), old(b[k]))
    ensures dst != null ==> forall k :: n <= k < dst.Length ==> dst[k] == old(dst[k])
  {
    if n == 0 {
      return;
    }
    var i := 0;
    while i < n
      invariant 0 <= i <= n
      invariant forall k :: 0 <= k < i ==> dst[k] == f(old(a[k]), old(b[k]))
      invariant forall k :: i <= k < dst.Length ==> dst[k] == old(dst[k])
      invariant forall k :: i <= k < a.Length ==> a[k] == old(a[k])
      invariant forall k :: i <= k < b.Length ==> b[k] == old(b[k])
    {
      dst[i] := f(a[i], b[i]);
      i := i + 1;
    }
  }

  /** The loop of reduce_maxAbs. */
  method MaxAbsPrefix(a: array?<real>, n: nat) returns (r: real)
    requires n > 0 ==> a != null && n <= a.Length
    ensures n == 0 ==> r == -1.0
    ensures n > 0 ==> r == MaxAbsFrom(-1.0, a[..n])
  {
    r := -1.0;
    var i := 0;
    while i < n
      invariant 0 <= i <= n
      invariant i > 0 ==> r == MaxAbsFrom(-1.0, a[..i])
      invariant i == 0 ==> r == -1.0
    {
      assert a[..i + 1][..i] == a[..i];
      r := Max(r, Abs(a[i]));
      i := i + 1;
    }
  }

  /** The loop of reduce_max. */
  method MaxPrefix(a: array?<real>, n: nat) returns (r: real)
    requires n > 0 ==> a != null && n <= a.Length
    ensures n == 0 ==> r == -DblMax
    ensures n > 0 ==> r == MaxFrom(-DblMax, a[..n])
  {
    r := -DblMax;
    var i := 0;
    while i < n
      invariant 0 <= i <= n
      invariant i > 0 ==> r == MaxFrom(-DblMax, a[..i])
      invariant i == 0 ==> r == -DblMax
    {
      assert a[..i + 1][..i] == a[..i];
      r := Max(r, a[i]);
      i := i + 1;
    }
  }

  /** The loop of reduce_min. */
  method MinPrefix(a: array?<real>, n: nat) returns (r: real)
    requires n > 0 ==> a != null && n <= a.Length
    ensures n == 0 ==> r == DblMax
    ensures n > 0 ==> r == MinFrom(DblMax, a[..n])
  {
    r := DblMax;
    var i := 0;
    while i < n
      invariant 0 <= i <= n
      invariant i > 0 ==> r == MinFrom(DblMax, a[..i])
      invariant i == 0 ==> r == DblMax
    {
      assert a[..i + 1][..i] == a[..i];
      r := Min(r, a[i]);
      i := i + 1;
    }
  }

  /** The loop of reduce_sum. */
  method SumPrefix(a: array?<real>, n: nat) returns (r: real)
    requires n > 0 ==> a != null && n <= a.Length
    ensures n == 0 ==> r == 0.0
    ensures n > 0 ==> r == Sum(a[..n])
  {
    r := 0.0;
    var i := 0;
    while i < n
      invariant 0 <= i <= n
      invariant i > 0 ==> r == Sum(a[..i])
      invariant i == 0 ==> r == 0.0
    {
      assert a[..i + 1][..i] == a[..i];
      r := r + a[i];
      i := i + 1;
    }
  }

  /** The Kahan loop of reduce_sum_quad; the compensation stays zero. */
  method KahanSumPrefix(a: array?<real>, n: nat) returns (sum: real)
    requires n > 0 ==> a != null && n <= a.Length
    ensures n == 0 ==> sum == 0.0
    ensures n > 0 ==> sum == Sum(a[..n])
  {
    sum := 0.0;
    var c := 0.0;
    var i := 0;
    while i < n
      invariant 0 <= i <= n
      invariant c == 0.0
      invariant i > 0 ==> sum == Sum(a[..i])
      invariant i == 0 ==> sum == 0.0
    {
      assert a[..i + 1][..i] == a[..i];
      var value := a[i];
      var y := value - c;
      var t := sum + y;
      c := (t - sum) - y;
      sum := t;
      i := i + 1;
    }
    sum := sum - c;
  }

  /** The loop of reduce_norm1. */
  method SumAbsPrefix(a: array?<real>, n: nat) returns (r: real)
    requires n > 0 ==> a != null && n <= a.Length
    ensures n == 0 ==> r == 0.0
    ensures n > 0 ==> r == SumAbs(a[..n])
  {
    r := 0.0;
    var i := 0;
    while i < n
      invariant 0 <= i <= n
      invariant i > 0 ==> r == SumAbs(a[..i])
      invariant i == 0 ==> r == 0.0
    {
      assert a[..i + 1][..i] == a[..i];
      r := r + Abs(a[i]);
      i := i + 1;
    }
  }

  /** The Kahan loop of reduce_norm1_quad. */
  method KahanSumAbsPrefix(a: array?<real>, n: nat) returns (sum: real)
    requires n > 0 ==> a != null && n <= a.Length
    ensures n == 0 ==> sum == 0.0
    ensures n > 0 ==> sum == SumAbs(a[..n])
  {
    sum := 0.0;
    var c := 0.0;
    var i := 0;
    while i < n
      invariant 0 <= i <= n
      invariant c == 0.0
      invariant i > 0 ==> sum == SumAbs(a[..i])
      invariant i == 0 ==> sum == 0.0
    {
      assert a[..i + 1][..i] == a[..i];
      var value := Abs(a[i]);
      var y := value - c;
      var t := sum + y;
      c := (t - sum) - y;
      sum := t;
      i := i + 1;
    }
    sum := sum - c;
  }

  /** The loop of reduce_norm2 and reduce_rms. */
  method SumSquaresPrefix(a: array?<real>, n: nat) returns (r: real)
    requires n > 0 ==> a != null && n <= a.Length
    ensures n == 0 ==> r == 0.0
    ensures n > 0 ==> r == SumSquares(a[..n])
  {
    r := 0.0;
    var i := 0;
    while i < n
      invariant 0 <= i <= n
      invariant i > 0 ==> r == SumSquares(a[..i])
      invariant i == 0 ==> r == 0.0
    {
      assert a[..i + 1][..i] == a[..i];
      r := r + a[i] * a[i];
      i := i + 1;
    }
  }

  /** The Kahan loop of reduce_norm2_quad and reduce_rms_quad. */
  method KahanSumSquaresPrefix(a: array?<real>, n: nat) returns (sum: real)
    requires n > 0 ==> a != null && n <= a.Length
    ensures n == 0 ==> sum == 0.0
    ensures n > 0 ==> sum == SumSquares(a[..n])
  {
    sum := 0.0;
    var c := 0.0;
    var i := 0;
    while i < n
      invariant 0 <= i <= n
      invariant c == 0.0
      invariant i > 0 ==> sum == SumSquares(a[..i])
      invariant i == 0 ==> sum == 0.0
    {
      assert a[..i + 1][..i] == a[..i];
      var value := a[i] * a[i];
      var y := value - c;
      var t := sum + y;
      c := (t - sum) - y;
      sum := t;
      i := i + 1;
    }
    sum := sum - c;
  }
}
