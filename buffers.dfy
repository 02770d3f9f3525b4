/**
 * The element loops the grid fields run over their buffers, as methods over
 * arrays proved against the value-level operations of Cells.
 */
module Buffers {
  import opened Cells
  /** The loop of setAllSpec: every complex cell of an interleaved buffer becomes z. */
  method FillCellsInto(a: array<real>, z: Complex)
    requires a.Length % 2 == 0
    modifies a
    ensures a[..] == FillCells(a.Length / 2, z)
  {
    ghost var filled := FillCells(a.Length / 2, z);
    var c := 0;
    while c < a.Length / 2
      invariant 0 <= c <= a.Length / 2
      invariant forall k :: 0 <= k < 2 * c ==> a[k] == filled[k]
    {
      a[2 * c] := z.re;
      a[2 * c + 1] := z.im;
      assert a[2 * c] == filled[2 * c] && a[2 * c + 1] == filled[2 * c + 1];
      c := c + 1;
    }
  }

  /** The loop of operator+=: a[k] += b[k] for every k; a and b may be the same buffer. */
  method AddInPlace(a: array<real>, b: array<real>)
    requires a.Length == b.Length
    modifies a
    ensures a[..] == Add(old(a[..]), old(b[..]))
  {
    var i := 0;
    while i < a.Length
      invariant 0 <= i <= a.Length
      invariant forall k :: 0 <= k < i ==> a[k] == old(a[k]) + old(b[k])
      invariant forall k :: i <= k < a.Length ==> a[k] == old(a[k]) && b[k] == old(b[k])
    {
      a[i] := a[i] + b[i];
      i := i + 1;
    }
  }

  /** The loop of operator-=: a[k] -= b[k] for every k; a and b may be the same buffer. */
  method SubInPlace(a: array<real>, b: array<real>)
    requires a.Length == b.Length
    modifies a
    ensures a[..] == Sub(old(a[..]), old(b[..]))
  {
    var i := 0;
    while i < a.Length
      invariant 0 <= i <= a.Length
      invariant forall k :: 0 <= k < i ==> a[k] == old(a[k]) - old(b[k])
      invariant forall k :: i <= k < a.Length ==> a[k] == old(a[k]) && b[k] == old(b[k])
    {
      a[i] := a[i] - b[i];
      i := i + 1;
    }
  }

  /** The loop of fft_backward: multiply every element of a in place by v. */
  method ScaleBuffer(a: array<real>, v: real)
    modifies a
    ensures a[..] == Scale(old(a[..]), v)
  {
    var i := 0;
    while i < a.Length
      invariant 0 <= i <= a.Length
      invariant forall k :: 0 <= k < i ==> a[k] == old(a[k]) * v
      invariant forall k :: i <= k < a.Length ==> a[k] == old(a[k])
    {
      a[i] := a[i] * v;
      i := i + 1;
    }
    assert forall k :: 0 <= k < a.Length ==> a[..][k] == Scale(old(a[..]), v)[k];
  }

  /** dst[k] := s[k] + t[k] for every k. */
  method AddInto(s: array<real>, t: array<real>, dst: array<real>)
    requires s.Length == t.Length == dst.Length && dst != s && dst != t
    modifies dst
    ensures dst[..] == Add(s[..], t[..])
  {
    var i := 0;
    while i < dst.Length
      invariant 0 <= i <= dst.Length
      invariant forall k :: 0 <= k < i ==> dst[k] == s[k] + t[k]
    {
      dst[i] := s[i] + t[i];
      i := i + 1;
    }
    assert forall k :: 0 <= k < dst.Length ==> dst[..][k] == Add(s[..], t[..])[k];
  }

  /** dst[k] := s[k] - t[k] for every k. */
  method SubInto(s: array<real>, t: array<real>, dst: array<real>)
    requires s.Length == t.Length == dst.Length && dst != s && dst != t
    modifies dst
    ensures dst[..] == Sub(s[..], t[..])
  {
    var i := 0;
    while i < dst.Length
      invariant 0 <= i <= dst.Length
      invariant forall k :: 0 <= k < i ==> dst[k] == s[k] - t[k]
    {
      dst[i] := s[i] - t[i];
      i := i + 1;
    }
    assert forall k :: 0 <= k < dst.Length ==> dst[..][k] == Sub(s[..], t[..])[k];
  }

  /** dst[k] := s[k] * t[k] for every k. */
  method MulInto(s: array<real>, t: array<real>, dst: array<real>)
    requires s.Length == t.Length == dst.Length && dst != s && dst != t
    modifies dst
    ensures dst[..] == Mul(s[..], t[..])
  {
    var i := 0;
    while i < dst.Length
      invariant 0 <= i <= dst.Length
      invariant forall k :: 0 <= k < i ==> dst[k] == s[k] * t[k]
    {
      dst[i] := s[i] * t[i];
      i := i + 1;
    }
    assert forall k :: 0 <= k < dst.Length ==> dst[..][k] == Mul(s[..], t[..])[k];
  }

  /** dst[k] := s[k] / t[k] for every k; no element of t is zero. */
  method QuotInto(s: array<real>, t: array<real>, dst: array<real>)
    requires s.Length == t.Length == dst.Length && dst != s && dst != t
    requires NonZero(t[..])
    modifies dst
    ensures dst[..] == Quot(s[..], t[..])
  {
    var i := 0;
    while i < dst.Length
      invariant 0 <= i <= dst.Length
      invariant forall k :: 0 <= k < i ==> dst[k] == s[k] / t[k]
    {
      assert t[..][i] == t[i];
      dst[i] := s[i] / t[i];
      i := i + 1;
    }
    assert forall k :: 0 <= k < dst.Length ==> dst[..][k] == Quot(s[..], t[..])[k];
  }

  /** dst[k] := s[k] * v for every k. */
  method ScaleInto(s: array<real>, v: real, dst: array<real>)
    requires s.Length == dst.Length && dst != s
    modifies dst
    ensures dst[..] == Scale(s[..], v)
  {
    var i := 0;
    while i < dst.Length
      invariant 0 <= i <= dst.Length
      invariant forall k :: 0 <= k < i ==> dst[k] == s[k] * v
    {
      dst[i] := s[i] * v;
      i := i + 1;
    }
    assert forall k :: 0 <= k < dst.Length ==> dst[..][k] == Scale(s[..], v)[k];
  }

  /** out[0] += v: the mean-mode update of the scalar operators. */
  method AddAtFirstInPlace(a: array<real>, v: real)
    requires a.Length > 0
    modifies a
    ensures a[..] == AddAtFirst(old(a[..]), v)
  {
    a[0] := a[0] + v;
  }

  /** A copy loop: dst takes src's contents (a copy onto itself changes nothing). */
  method CopyBuffer(src: array<real>, dst: array<real>)
    requires src.Length == dst.Length
    modifies dst
    ensures dst[..] == old(src[..])
  {
    var i := 0;
    while i < src.Length
      invariant 0 <= i <= src.Length
      invariant forall k :: 0 <= k < i ==> dst[k] == old(src[k])
      invariant forall k :: i <= k < src.Length ==> src[k] == old(src[k])
    {
      dst[i] := src[i];
      i := i + 1;
    }
    assert forall k :: 0 <= k < dst.Length ==> dst[..][k] == old(src[..])[k];
  }

  /** The loop of unary operator-: negate every element in place. */
  method NegateBuffer(a: array<real>)
    modifies a
    ensures a[..] == Negate(old(a[..]))
  {
    var i := 0;
    while i < a.Length
      invariant 0 <= i <= a.Length
      invariant forall k :: 0 <= k < i ==> a[k] == -old(a[k])
      invariant forall k :: i <= k < a.Length ==> a[k] == old(a[k])
    {
      a[i] := -a[i];
      i := i + 1;
    }
    assert forall k :: 0 <= k < a.Length ==> a[..][k] == Negate(old(a[..]))[k];
  }

  /**
   * The two-cells-per-step loop of the spectral products and quotients:
   * cell c of dst becomes f(cell c of s, cell c of t).
   */
  method CellwiseInto(f: (Complex, Complex) -> Complex, s: array<real>, t: array<real>, dst: array<real>)
    requires s.Length == t.Length == dst.Length && s.Length % 2 == 0
    requires dst != s && dst != t
    modifies dst
    ensures dst[..] == Cellwise(f, s[..], t[..])
  {
    var c := 0;
    while c < s.Length / 2
      invariant 0 <= c <= s.Length / 2
      invariant forall c' :: 0 <= c' < c ==> CellAt(dst[..], c') == f(CellAt(s[..], c'), CellAt(t[..], c'))
    {
      var z := f(Complex(s[2 * c], s[2 * c + 1]), Complex(t[2 * c], t[2 * c + 1]));
      dst[2 * c] := z.re;
      dst[2 * c + 1] := z.im;
      c := c + 1;
    }
    CellwiseFromCells(f, s[..], t[..], dst[..]);
  }
}
