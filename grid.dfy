/**
 * Buffer geometry shared by the 2-D fields: the row-major index map of a
 * Cartesian grid, the real-to-complex ("half plus one") spectral layout and
 * the interleaved (re, im) storage of complex cells.
 *
 * A grid has res0 columns (x) and res1 rows (y); cell (j, i) is row j,
 * column i and lives at flat position j * res0 + i.
 */
module Grid {

  /** Number of real values of a Cartesian buffer. */
  function CartLength(res0: nat, res1: nat): nat
  {
    res0 * res1
  }

  /** Number of complex columns kept by a real-to-complex transform. */
  function SpecWidth(res0: nat): nat
  {
    res0 / 2 + 1
  }

  /** Number of doubles of a spectral buffer: res1 rows of SpecWidth complex cells. */
  function SpecLength(res0: nat, res1: nat): nat
  {
    res1 * SpecWidth(res0) * 2
  }

  /** Row-major flat position of cell (j, i) in a grid that is w cells wide. */
  function CellIndex(j: nat, i: nat, w: nat): nat
  {
    j * w + i
  }

  /** The index map sends every cell of an h-by-w grid into [0, w*h). */
  lemma CellIndexInRange(j: nat, i: nat, w: nat, h: nat)
    requires j < h && i < w
    ensures CellIndex(j, i, w) < w * h
    ensures 2 * CellIndex(j, i, w) + 1 < 2 * (w * h)
  {
    calc {
      CellIndex(j, i, w);
      j * w + i;
    <  j * w + w;
      (j + 1) * w;
    <= { MulMonotone(j + 1, h, w); }
      h * w;
    }
  }

  /** Distinct cells have distinct flat positions. */
  lemma CellIndexInjective(j: nat, i: nat, j': nat, i': nat, w: nat)
    requires i < w && i' < w
    ensures CellIndex(j, i, w) == CellIndex(j', i', w) ==> j == j' && i == i'
  {
    if j < j' {
      MulMonotone(j + 1, j', w);
      assert CellIndex(j, i, w) < CellIndex(j', i', w);
    } else if j' < j {
      MulMonotone(j' + 1, j, w);
      assert CellIndex(j', i', w) < CellIndex(j, i, w);
    }
  }

  lemma MulPositiveNat(a: nat, b: nat)
    requires a > 0 && b > 0
    ensures a * b > 0
  {
    MulMonotone(1, a, b);
  }

  lemma MulMonotone(a: nat, b: nat, w: nat)
    requires a <= b
    ensures a * w <= b * w
  {
  }

  /**
   * The spectral length as the source computes it (the Cartesian length
   * divided by res0, times twice the half-plus-one width) is res1 rows of
   * res0/2+1 complex cells.
   */
  lemma SpecLengthFromCartLength(res0: nat, res1: nat)
    requires res0 > 0
    ensures (CartLength(res0, res1) / res0) * (SpecWidth(res0) * 2) == SpecLength(res0, res1)
  {
    assert CartLength(res0, res1) == res1 * res0;
    DivExact(res1, res0);
  }

  lemma DivExact(q: nat, d: nat)
    requires d > 0
    ensures (q * d) / d == q
  {
    var r := (q * d) / d;
    var m := (q * d) % d;
    assert q * d == r * d + m && 0 <= m < d;
    assert (q - r) * d == m;
    MulSign(q - r, d);
  }

  /** A multiple of d by a nonzero integer is at least d away from zero. */
  lemma MulSign(x: int, d: nat)
    ensures x >= 1 ==> x * d >= d
    ensures x <= -1 ==> x * d + d <= 0
  {
  }


  /** A spectral buffer holds two doubles per complex cell of a SpecWidth-by-res1 grid. */
  lemma SpecLengthIsCells(res0: nat, res1: nat)
    ensures SpecLength(res0, res1) == 2 * (SpecWidth(res0) * res1)
    ensures SpecLength(res0, res1) % 2 == 0
  {
  }

  /**
   * Writing cell (j, i) of a row-major w-by-h buffer and reading cell
   * (j', i') back yields the written value for the same cell and the old
   * value for every other cell.
   */
  lemma CellWriteRead(s: seq<real>, j: nat, i: nat, j': nat, i': nat, w: nat, h: nat, v: real)
    requires j < h && i < w && j' < h && i' < w && |s| == w * h
    ensures CellIndex(j, i, w) < |s| && CellIndex(j', i', w) < |s|
    ensures s[CellIndex(j, i, w) := v][CellIndex(j', i', w)] ==
            if j == j' && i == i' then v else s[CellIndex(j', i', w)]
  {
    CellIndexInRange(j, i, w, h);
    CellIndexInRange(j', i', w, h);
    CellIndexInjective(j, i, j', i', w);
  }

  /** Every flat position of a w x h grid is the position of its own row and column. */
  lemma PositionCell(p: nat, w: nat, h: nat)
    requires w > 0 && p < w * h
    ensures p % w < w && p / w < h && p == CellIndex(p / w, p % w, w)
  {
    var q := p / w;
    if q >= h {
      MulMonotone(h, q, w);
    }
  }

  /** Row and column of a flat position of a w-wide row-major grid. */
  lemma DivModCell(y: nat, x: nat, w: nat)
    requires x < w
    ensures CellIndex(y, x, w) / w == y && CellIndex(y, x, w) % w == x
  {
    var p := CellIndex(y, x, w);
    var q := p / w;
    var r := p % w;
    assert p == q * w + r && 0 <= r < w;
    if q < y {
      MulMonotone(q + 1, y, w);
    } else if y < q {
      MulMonotone(y + 1, q, w);
    }
  }
}
