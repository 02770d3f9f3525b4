/**
 * Value-level arithmetic shared by the grid fields: element-wise operations
 * on real buffers, complex numbers stored as interleaved (re, im) pairs, and
 * the complex product and quotients the spectral operators apply cell by
 * cell.
 */
module Cells {

  /* ---------- element-wise operations on real buffers ---------- */

  function Add(s: seq<real>, t: seq<real>): (r: seq<real>)
    requires |s| == |t|
  {
    seq(|s|, k requires 0 <= k < |s| => s[k] + t[k])
  }

  function Sub(s: seq<real>, t: seq<real>): (r: seq<real>)
    requires |s| == |t|
  {
    seq(|s|, k requires 0 <= k < |s| => s[k] - t[k])
  }

  function Mul(s: seq<real>, t: seq<real>): (r: seq<real>)
    requires |s| == |t|
  {
    seq(|s|, k requires 0 <= k < |s| => s[k] * t[k])
  }

  /** No element is zero, so element-wise division is defined. */
  predicate NonZero(s: seq<real>)
  {
    forall k :: 0 <= k < |s| ==> s[k] != 0.0
  }

  function Quot(s: seq<real>, t: seq<real>): (r: seq<real>)
    requires |s| == |t| && NonZero(t)
  {
    seq(|s|, k requires 0 <= k < |s| => s[k] / t[k])
  }

  function AddScalar(s: seq<real>, v: real): (r: seq<real>)
  {
    seq(|s|, k requires 0 <= k < |s| => s[k] + v)
  }

  function Scale(s: seq<real>, v: real): (r: seq<real>)
  {
    seq(|s|, k requires 0 <= k < |s| => s[k] * v)
  }

  function Negate(s: seq<real>): (r: seq<real>)
  {
    seq(|s|, k requires 0 <= k < |s| => -s[k])
  }

  /** v - s[k] for every k. */
  function ValueMinus(v: real, s: seq<real>): (r: seq<real>)
  {
    seq(|s|, k requires 0 <= k < |s| => v - s[k])
  }

  /** v / s[k] for every k. */
  function ValueDiv(v: real, s: seq<real>): (r: seq<real>)
    requires NonZero(s)
  {
    seq(|s|, k requires 0 <= k < |s| => v / s[k])
  }

  function Fill(n: nat, v: real): (r: seq<real>)
  {
    seq(n, k requires 0 <= k < n => v)
  }

  /** s with v added to element 0 only (the mean mode of a spectrum). */
  function AddAtFirst(s: seq<real>, v: real): (r: seq<real>)
    requires |s| > 0
  {
    s[0 := s[0] + v]
  }

  /** Subtraction undoes addition of the same buffer. */
  lemma SubUndoesAdd(s: seq<real>, t: seq<real>)
    requires |s| == |t|
    ensures Sub(Add(s, t), t) == s
  {
    var r := Sub(Add(s, t), t);
    assert |r| == |s|;
    forall k | 0 <= k < |s| ensures r[k] == s[k] {
    }
  }

  /** Adding -v undoes adding v. */
  lemma AddScalarInverse(s: seq<real>, v: real)
    ensures AddScalar(AddScalar(s, v), -v) == s
  {
    var r := AddScalar(AddScalar(s, v), -v);
    forall k | 0 <= k < |s| ensures r[k] == s[k] {
    }
  }

  /** Filling with v and then adding -v leaves a buffer of zeros. */
  lemma FillThenSubtract(n: nat, v: real)
    ensures AddScalar(Fill(n, v), -v) == Fill(n, 0.0)
  {
  }

  /** Dividing by the same non-zero buffer undoes multiplication. */
  lemma QuotUndoesMul(s: seq<real>, t: seq<real>)
    requires |s| == |t| && NonZero(t)
    ensures Quot(Mul(s, t), t) == s
  {
    var r := Quot(Mul(s, t), t);
    forall k | 0 <= k < |s| ensures r[k] == s[k] {
      assert r[k] == (s[k] * t[k]) / t[k];
    }
  }

  /** v - a is the negation of a shifted by v. */
  lemma ValueMinusIsShiftedNegation(v: real, s: seq<real>)
    ensures ValueMinus(v, s) == AddScalar(Negate(s), v)
  {
  }

  /** Negation is an involution. */
  lemma NegateInvolutive(s: seq<real>)
    ensures Negate(Negate(s)) == s
  {
    var r := Negate(Negate(s));
    forall k | 0 <= k < |s| ensures r[k] == s[k] {
    }
  }

  /** Scaling by v and then by 1/v restores the buffer. */
  lemma ScaleInverse(s: seq<real>, v: real)
    requires v != 0.0
    ensures Scale(Scale(s, v), 1.0 / v) == s
  {
    var r := Scale(Scale(s, v), 1.0 / v);
    forall k | 0 <= k < |s| ensures r[k] == s[k] {
      assert r[k] == (s[k] * v) * (1.0 / v);
    }
  }

  /** Adding at the first element and subtracting the same amount there cancel. */
  lemma AddAtFirstInverse(s: seq<real>, v: real)
    requires |s| > 0
    ensures AddAtFirst(AddAtFirst(s, v), -v) == s
  {
  }

  /* ---------- complex numbers stored as interleaved pairs ---------- */

  datatype Complex = Complex(re: real, im: real)

  const Zero := Complex(0.0, 0.0)

  /** Complex cell c of an interleaved buffer: real part at 2c, imaginary part at 2c+1. */
  function CellAt(s: seq<real>, c: nat): Complex
    requires 2 * c + 1 < |s|
  {
    Complex(s[2 * c], s[2 * c + 1])
  }

  /** Number of complex cells held by an interleaved buffer. */
  function CellCount(s: seq<real>): nat
  {
    |s| / 2
  }

  function CAdd(a: Complex, b: Complex): Complex
  {
    Complex(a.re + b.re, a.im + b.im)
  }

  function CSub(a: Complex, b: Complex): Complex
  {
    Complex(a.re - b.re, a.im - b.im)
  }

  /** The complex product (ar*br - ai*bi, ar*bi + ai*br). */
  function CMul(a: Complex, b: Complex): Complex
  {
    Complex(a.re * b.re - a.im * b.im, a.re * b.im + a.im * b.re)
  }

  /** |b|^2, the denominator of the conjugate quotient formula. */
  function NormSquared(b: Complex): real
  {
    b.re * b.re + b.im * b.im
  }

  /**
   * The quotient with the zero-denominator rule: a / b by the conjugate
   * formula, and (0, 0) where |b|^2 is zero.
   */
  function CDiv(a: Complex, b: Complex): (r: Complex)
    ensures NormSquared(b) == 0.0 ==> r == Zero
  {
    var den := NormSquared(b);
    if den == 0.0 then Zero
    else Complex((a.re * b.re + a.im * b.im) / den, (a.im * b.re - a.re * b.im) / den)
  }

  /**
   * The quotient formula as the real-field operator writes it:
   * (ar*br - ai*bi, ai*br - ar*bi) times 1/(br^2 - bi^2).
   * Where br^2 == bi^2 the source divides by zero; the model yields zero there.
   */
  function CDivAsWritten(a: Complex, b: Complex): Complex
  {
    var d := b.re * b.re - b.im * b.im;
    if d == 0.0 then Zero
    else Complex((a.re * b.re - a.im * b.im) * (1.0 / d), (a.im * b.re - a.re * b.im) * (1.0 / d))
  }

  /** The quotient undoes the product wherever the denominator |b|^2 is non-zero. */
  lemma CDivUndoesCMul(a: Complex, b: Complex)
    requires NormSquared(b) != 0.0
    ensures CDiv(CMul(a, b), b) == a
  {
    var p := CMul(a, b);
    var den := NormSquared(b);
    assert p.re * b.re + p.im * b.im == a.re * den by {
      calc {
        p.re * b.re + p.im * b.im;
        (a.re * b.re - a.im * b.im) * b.re + (a.re * b.im + a.im * b.re) * b.im;
        a.re * (b.re * b.re + b.im * b.im);
      }
    }
    assert p.im * b.re - p.re * b.im == a.im * den by {
      calc {
        p.im * b.re - p.re * b.im;
        (a.re * b.im + a.im * b.re) * b.re - (a.re * b.re - a.im * b.im) * b.im;
        a.im * (b.re * b.re + b.im * b.im);
      }
    }
  }

  /** The product of a cell with itself is real-negative for a purely imaginary cell: (0, k)^2 = (-k^2, 0). */
  lemma ImaginarySquare(k: real)
    ensures CMul(Complex(0.0, k), Complex(0.0, k)) == Complex(-(k * k), 0.0)
  {
  }

  /** The complex product is commutative. */
  lemma CMulCommutes(a: Complex, b: Complex)
    ensures CMul(a, b) == CMul(b, a)
  {
  }

  /**
   * The as-written quotient is not the inverse of the product:
   * with a = 1 and b = i it returns i where a / b = -i.
   */
  lemma CDivAsWrittenCounterexample()
    ensures CMul(Complex(0.0, -1.0), Complex(0.0, 1.0)) == Complex(1.0, 0.0)
    ensures CDiv(Complex(1.0, 0.0), Complex(0.0, 1.0)) == Complex(0.0, -1.0)
    ensures CDivAsWritten(Complex(1.0, 0.0), Complex(0.0, 1.0)) == Complex(0.0, 1.0)
  {
    assert NormSquared(Complex(0.0, 1.0)) == 1.0;
  }

  /* ---------- whole interleaved buffers ---------- */

  /** s with cell c overwritten by z. */
  function SetCell(s: seq<real>, c: nat, z: Complex): (r: seq<real>)
    requires 2 * c + 1 < |s|
  {
    s[2 * c := z.re][2 * c + 1 := z.im]
  }

  /** Setting both cells of a two-cell buffer, cell 1 first, leaves exactly the two values. */
  lemma SetBothCells(s: seq<real>, a: Complex, b: Complex)
    requires |s| == 4
    ensures SetCell(SetCell(s, 1, a), 0, b) == [b.re, b.im, a.re, a.im]
  {
    var t := SetCell(s, 1, a);
    assert |t| == 4;
  }

  /** Writing cell c and reading cell c' gives z for c' == c and the old cell otherwise. */
  lemma SetCellThenRead(s: seq<real>, c: nat, c': nat, z: Complex)
    requires 2 * c + 1 < |s| && 2 * c' + 1 < |s|
    ensures |SetCell(s, c, z)| == |s|
    ensures CellAt(SetCell(s, c, z), c') == if c == c' then z else CellAt(s, c')
  {
  }

  /** n cells, every one equal to z. */
  function FillCells(n: nat, z: Complex): (r: seq<real>)
  {
    seq(2 * n, k requires 0 <= k < 2 * n => if k % 2 == 0 then z.re else z.im)
  }

  lemma FillCellsReadsBack(n: nat, z: Complex, c: nat)
    requires c < n
    ensures |FillCells(n, z)| == 2 * n
    ensures CellAt(FillCells(n, z), c) == z
  {
  }

  /**
   * Cell by cell combination of two interleaved buffers: cell c of the
   * result is f(cell c of s, cell c of t).
   */
  function Cellwise(f: (Complex, Complex) -> Complex, s: seq<real>, t: seq<real>): (r: seq<real>)
    requires |s| == |t| && |s| % 2 == 0
  {
    seq(|s|, k requires 0 <= k < |s| =>
      var z := f(Complex(s[k - k % 2], s[k - k % 2 + 1]), Complex(t[k - k % 2], t[k - k % 2 + 1]));
      if k % 2 == 0 then z.re else z.im)
  }

  lemma CellwiseAt(f: (Complex, Complex) -> Complex, s: seq<real>, t: seq<real>, c: nat)
    requires |s| == |t| && |s| % 2 == 0 && 2 * c + 1 < |s|
    ensures |Cellwise(f, s, t)| == |s|
    ensures CellAt(Cellwise(f, s, t), c) == f(CellAt(s, c), CellAt(t, c))
  {
  }

  /** A buffer whose every cell is f of the matching cells of s and t is Cellwise(f, s, t). */
  lemma CellwiseFromCells(f: (Complex, Complex) -> Complex, s: seq<real>, t: seq<real>, d: seq<real>)
    requires |s| == |t| == |d| && |s| % 2 == 0
    requires forall c :: 0 <= c < |s| / 2 ==> CellAt(d, c) == f(CellAt(s, c), CellAt(t, c))
    ensures d == Cellwise(f, s, t)
  {
    forall c | 0 <= c < |s| / 2
      ensures CellAt(d, c) == CellAt(Cellwise(f, s, t), c)
    {
      CellwiseAt(f, s, t, c);
    }
    SameCellsSameBuffer(d, Cellwise(f, s, t));
  }

  /** The cell-wise complex product is commutative. */
  lemma CellwiseMulCommutes(s: seq<real>, t: seq<real>)
    requires |s| == |t| && |s| % 2 == 0
    ensures Cellwise(CMul, s, t) == Cellwise(CMul, t, s)
  {
    forall c | 0 <= c < |s| / 2
      ensures CellAt(Cellwise(CMul, s, t), c) == CellAt(Cellwise(CMul, t, s), c)
    {
      CellwiseAt(CMul, s, t, c);
      CellwiseAt(CMul, t, s, c);
      CMulCommutes(CellAt(s, c), CellAt(t, c));
    }
    SameCellsSameBuffer(Cellwise(CMul, s, t), Cellwise(CMul, t, s));
  }

  /** The complex product distributes over the sum of its left factors. */
  lemma CMulDistributesOverCAdd(x: Complex, y: Complex, a: Complex)
    ensures CMul(CAdd(x, y), a) == CAdd(CMul(x, a), CMul(y, a))
  {
    var l := CMul(CAdd(x, y), a);
    var r := CAdd(CMul(x, a), CMul(y, a));
    assert l.re == r.re by {
      MulOverAdd(x.re, y.re, a.re);
      MulOverAdd(x.im, y.im, a.im);
    }
    assert l.im == r.im by {
      MulOverAdd(x.re, y.re, a.im);
      MulOverAdd(x.im, y.im, a.re);
    }
  }

  /** The complex product distributes over the difference of its left factors. */
  lemma CMulDistributesOverCSub(x: Complex, y: Complex, a: Complex)
    ensures CMul(CSub(x, y), a) == CSub(CMul(x, a), CMul(y, a))
  {
    var l := CMul(CSub(x, y), a);
    var r := CSub(CMul(x, a), CMul(y, a));
    assert l.re == r.re by {
      MulOverSub(x.re, y.re, a.re);
      MulOverSub(x.im, y.im, a.im);
    }
    assert l.im == r.im by {
      MulOverSub(x.re, y.re, a.im);
      MulOverSub(x.im, y.im, a.re);
    }
  }

  lemma MulOverAdd(p: real, q: real, r: real)
    ensures (p + q) * r == p * r + q * r
  {
  }

  lemma MulOverSub(p: real, q: real, r: real)
    ensures (p - q) * r == p * r - q * r
  {
  }

  /** Cell c of the cell-wise product of a sum of buffers. */
  lemma CellwiseMulOverAddAt(x: seq<real>, y: seq<real>, a: seq<real>, c: nat)
    requires |x| == |y| == |a| && |x| % 2 == 0 && 2 * c + 1 < |x|
    ensures CellAt(Cellwise(CMul, Add(x, y), a), c) == CellAt(Add(Cellwise(CMul, x, a), Cellwise(CMul, y, a)), c)
  {
    CellwiseAt(CMul, Add(x, y), a, c);
    CellwiseAt(CMul, x, a, c);
    CellwiseAt(CMul, y, a, c);
    assert CellAt(Add(x, y), c) == CAdd(CellAt(x, c), CellAt(y, c));
    CMulDistributesOverCAdd(CellAt(x, c), CellAt(y, c), CellAt(a, c));
  }

  /** Cell c of the cell-wise product of a difference of buffers. */
  lemma CellwiseMulOverSubAt(x: seq<real>, y: seq<real>, a: seq<real>, c: nat)
    requires |x| == |y| == |a| && |x| % 2 == 0 && 2 * c + 1 < |x|
    ensures CellAt(Cellwise(CMul, Sub(x, y), a), c) == CellAt(Sub(Cellwise(CMul, x, a), Cellwise(CMul, y, a)), c)
  {
    CellwiseAt(CMul, Sub(x, y), a, c);
    CellwiseAt(CMul, x, a, c);
    CellwiseAt(CMul, y, a, c);
    assert CellAt(Sub(x, y), c) == CSub(CellAt(x, c), CellAt(y, c));
    CMulDistributesOverCSub(CellAt(x, c), CellAt(y, c), CellAt(a, c));
  }

  /**
   * Applying the sum of two spectral operators to a field is adding their
   * applications: the cell-wise product distributes over the sum.
   */
  lemma CellwiseMulDistributesOverAdd(x: seq<real>, y: seq<real>, a: seq<real>)
    requires |x| == |y| == |a| && |x| % 2 == 0
    ensures Cellwise(CMul, Add(x, y), a) == Add(Cellwise(CMul, x, a), Cellwise(CMul, y, a))
  {
    forall c | 0 <= c < |x| / 2
      ensures CellAt(Cellwise(CMul, Add(x, y), a), c) == CellAt(Add(Cellwise(CMul, x, a), Cellwise(CMul, y, a)), c)
    {
      CellwiseMulOverAddAt(x, y, a, c);
    }
    SameCellsSameBuffer(Cellwise(CMul, Add(x, y), a), Add(Cellwise(CMul, x, a), Cellwise(CMul, y, a)));
  }

  /** The same for the difference of two spectral operators. */
  lemma CellwiseMulDistributesOverSub(x: seq<real>, y: seq<real>, a: seq<real>)
    requires |x| == |y| == |a| && |x| % 2 == 0
    ensures Cellwise(CMul, Sub(x, y), a) == Sub(Cellwise(CMul, x, a), Cellwise(CMul, y, a))
  {
    forall c | 0 <= c < |x| / 2
      ensures CellAt(Cellwise(CMul, Sub(x, y), a), c) == CellAt(Sub(Cellwise(CMul, x, a), Cellwise(CMul, y, a)), c)
    {
      CellwiseMulOverSubAt(x, y, a, c);
    }
    SameCellsSameBuffer(Cellwise(CMul, Sub(x, y), a), Sub(Cellwise(CMul, x, a), Cellwise(CMul, y, a)));
  }

  /**
   * Cell-wise division by t undoes cell-wise multiplication by t wherever
   * no cell of t has a zero norm.
   */
  lemma CellwiseDivUndoesMul(s: seq<real>, t: seq<real>)
    requires |s| == |t| && |s| % 2 == 0
    requires forall c :: 0 <= c < |t| / 2 ==> NormSquared(CellAt(t, c)) != 0.0
    ensures Cellwise(CDiv, Cellwise(CMul, s, t), t) == s
  {
    var p := Cellwise(CMul, s, t);
    var q := Cellwise(CDiv, p, t);
    forall c | 0 <= c < |s| / 2
      ensures CellAt(q, c) == CellAt(s, c)
    {
      CellwiseAt(CMul, s, t, c);
      CellwiseAt(CDiv, p, t, c);
      CDivUndoesCMul(CellAt(s, c), CellAt(t, c));
    }
    SameCellsSameBuffer(q, s);
  }

  /** Two even-length buffers with the same cells are equal. */
  lemma SameCellsSameBuffer(s: seq<real>, t: seq<real>)
    requires |s| == |t| && |s| % 2 == 0
    requires forall c :: 0 <= c < |s| / 2 ==> CellAt(s, c) == CellAt(t, c)
    ensures s == t
  {
    forall k | 0 <= k < |s|
      ensures s[k] == t[k]
    {
      var c := k / 2;
      assert CellAt(s, c) == CellAt(t, c);
    }
  }
}
