/**
 * The index patterns the spectral derivative set-ups write.  Each is a pair
 * of nested loops over rows j in [j0, j1) and columns i in [i0, i1); every
 * iteration writes cell (j, i) and its mirror row h - dr - j and, when the
 * pattern mirrors columns too, the mirror column w - dc - i of both rows.
 * The value written depends on the loop indices and on which of the four
 * cells it goes to.  Every cell no iteration reaches keeps the zero the
 * set-up starts from.
 *
 * A cell is addressed as (row y, column x) of a w-wide row-major grid of
 * interleaved complex cells.
 */
module SpectralPatterns {
  import opened Grid
  import opened Cells

  /** M_PIl, the long-double pi the derivative set-ups scale by. */
  const Pi: real := 3.14159265358979323846264338327950288

  /** Which loop index a row (or a column) is written from, if any. */
  datatype Source = Direct(n: nat) | Mirrored(n: nat) | Untouched

  /** The loop bounds and mirror offsets of one pattern. */
  datatype Pattern = Pattern(j0: nat, j1: nat, dr: nat, i0: nat, i1: nat, dc: nat, mirrorCols: bool)

  /** The value an iteration (j, i) writes into the direct or mirrored row and column. */
  type Multiplier = (nat, nat, bool, bool) -> Complex

  /**
   * The bounds under which every written cell lies inside the grid and the
   * direct and mirrored rows (and columns) never meet.
   */
  predicate Fits(p: Pattern, w: nat, h: nat)
  {
    p.j0 + p.dr >= 1 && 2 * p.j1 <= h - p.dr + 1 &&
    p.i1 <= w && (p.mirrorCols ==> p.i0 + p.dc >= 1 && 2 * p.i1 <= w - p.dc + 1)
  }

  function RowSource(p: Pattern, h: nat, y: nat): Source
  {
    if p.j0 <= y < p.j1 then Direct(y)
    else if p.j0 <= h - p.dr - y < p.j1 then Mirrored(h - p.dr - y)
    else Untouched
  }

  function ColSource(p: Pattern, w: nat, x: nat): Source
  {
    if p.i0 <= x < p.i1 then Direct(x)
    else if p.mirrorCols && p.i0 <= w - p.dc - x < p.i1 then Mirrored(w - p.dc - x)
    else Untouched
  }

  /** Cell (y, x) once both loops have finished. */
  function PatternCell(p: Pattern, m: Multiplier, w: nat, h: nat, y: nat, x: nat): Complex
  {
    var r := RowSource(p, h, y);
    var c := ColSource(p, w, x);
    if r.Untouched? || c.Untouched? then Zero else m(r.n, c.n, r.Mirrored?, c.Mirrored?)
  }

  /** Cell (y, x) once every iteration before (j, i), in loop order, has run. */
  function PartialCell(p: Pattern, m: Multiplier, w: nat, h: nat, y: nat, x: nat, j: nat, i: nat): Complex
  {
    var r := RowSource(p, h, y);
    var c := ColSource(p, w, x);
    if r.Untouched? || c.Untouched? || !(r.n < j || (r.n == j && c.n < i)) then Zero
    else m(r.n, c.n, r.Mirrored?, c.Mirrored?)
  }

  /** Cell (y, x) of a w-wide interleaved buffer (zero outside the buffer). */
  function GridCell(s: seq<real>, w: nat, y: nat, x: nat): Complex
  {
    var c := CellIndex(y, x, w);
    if 2 * c + 1 < |s| then CellAt(s, c) else Zero
  }

  /** set(y, x, z): the buffer with cell (y, x) overwritten (unchanged outside the buffer). */
  function WriteGridCell(s: seq<real>, w: nat, y: nat, x: nat, z: Complex): (r: seq<real>)
    ensures |r| == |s|
  {
    var c := CellIndex(y, x, w);
    if 2 * c + 1 < |s| then SetCell(s, c, z) else s
  }

  /** Every cell of the w x h grid s holds the pattern's value. */
  predicate HoldsPattern(s: seq<real>, w: nat, h: nat, p: Pattern, m: Multiplier)
  {
    forall y: nat, x: nat :: y < h && x < w ==> GridCell(s, w, y, x) == PatternCell(p, m, w, h, y, x)
  }

  /** Every cell of the grid holds what the iterations before (j, i) wrote. */
  predicate FilledBefore(s: seq<real>, p: Pattern, m: Multiplier, w: nat, h: nat, j: nat, i: nat)
  {
    forall y: nat, x: nat :: y < h && x < w ==> GridCell(s, w, y, x) == PartialCell(p, m, w, h, y, x, j, i)
  }

  /** The writes of iteration (j, i), in the order the loops issue them. */
  function IterationWrites(s: seq<real>, p: Pattern, m: Multiplier, w: nat, h: nat, j: nat, i: nat): (r: seq<real>)
    requires Fits(p, w, h) && p.j0 <= j < p.j1 && p.i0 <= i < p.i1
    ensures |r| == |s|
  {
    var s1 := WriteGridCell(s, w, j, i, m(j, i, false, false));
    var s2 := WriteGridCell(s1, w, h - p.dr - j, i, m(j, i, true, false));
    if p.mirrorCols then
      var s3 := WriteGridCell(s2, w, j, w - p.dc - i, m(j, i, false, true));
      WriteGridCell(s3, w, h - p.dr - j, w - p.dc - i, m(j, i, true, true))
    else s2
  }

  /** Writing a cell inside the grid changes that cell and no other. */
  lemma WriteThenRead(s: seq<real>, w: nat, h: nat, y0: nat, x0: nat, z: Complex, y: nat, x: nat)
    requires |s| == 2 * (w * h) && y0 < h && x0 < w && y < h && x < w
    ensures GridCell(WriteGridCell(s, w, y0, x0, z), w, y, x) ==
            if y == y0 && x == x0 then z else GridCell(s, w, y, x)
  {
    CellIndexInRange(y0, x0, w, h);
    CellIndexInRange(y, x, w, h);
    CellIndexInjective(y0, x0, y, x, w);
    SetCellThenRead(s, CellIndex(y0, x0, w), CellIndex(y, x, w), z);
  }

  /** A write inside the buffer is SetCell at the flat index. */
  lemma WriteInsideBuffer(s: seq<real>, w: nat, y: nat, x: nat, z: Complex)
    requires 2 * CellIndex(y, x, w) + 1 < |s|
    ensures WriteGridCell(s, w, y, x, z) == SetCell(s, CellIndex(y, x, w), z)
  {
  }

  /** A write whose flat index lies past the buffer leaves it unchanged. */
  lemma WriteOutsideBuffer(s: seq<real>, w: nat, y: nat, x: nat, z: Complex)
    requires 2 * CellIndex(y, x, w) + 1 >= |s|
    ensures WriteGridCell(s, w, y, x, z) == s
  {
  }

  /** On a grid one column wide and two rows high, the write at (0, 1) lands in row 1. */
  lemma OneColumnWrites(s: seq<real>, a: Complex, b: Complex)
    requires |s| == 4
    ensures WriteGridCell(WriteGridCell(s, 1, 0, 1, a), 1, 0, 0, b) == SetCell(SetCell(s, 1, a), 0, b)
  {
    WriteInsideBuffer(s, 1, 0, 1, a);
    WriteInsideBuffer(SetCell(s, 1, a), 1, 0, 0, b);
  }

  /** On a single cell, the write at (0, 1) falls outside the buffer and the one at (0, 0) stays. */
  lemma SingleCellWrites(s: seq<real>, a: Complex, b: Complex)
    requires |s| == 2
    ensures WriteGridCell(WriteGridCell(s, 1, 0, 1, a), 1, 0, 0, b) == [b.re, b.im]
  {
    WriteOutsideBuffer(s, 1, 0, 1, a);
    var u := WriteGridCell(s, 1, 0, 0, b);
    assert u == SetCell(s, 0, b);
  }

  /** The rows and columns an iteration writes, and the loop index they read back as. */
  lemma TargetSources(p: Pattern, w: nat, h: nat, j: nat, i: nat)
    requires Fits(p, w, h) && p.j0 <= j < p.j1 && p.i0 <= i < p.i1
    ensures h - p.dr - j >= 0 && h - p.dr - j < h && j < h && i < w
    ensures RowSource(p, h, j) == Direct(j) && RowSource(p, h, h - p.dr - j) == Mirrored(j)
    ensures ColSource(p, w, i) == Direct(i)
    ensures p.mirrorCols ==> 0 <= w - p.dc - i < w && ColSource(p, w, w - p.dc - i) == Mirrored(i)
  {
  }

  /**
   * Advancing the loop position from (j, i) to (j, i + 1) changes exactly
   * the cells whose row and column read back as loop indices j and i.
   */
  lemma PartialAdvance(p: Pattern, m: Multiplier, w: nat, h: nat, y: nat, x: nat, j: nat, i: nat)
    requires Fits(p, w, h) && p.j0 <= j < p.j1 && p.i0 <= i < p.i1 && y < h && x < w
    ensures var r := RowSource(p, h, y);
            var c := ColSource(p, w, x);
            PartialCell(p, m, w, h, y, x, j, i + 1) ==
            if !r.Untouched? && !c.Untouched? && r.n == j && c.n == i then m(j, i, r.Mirrored?, c.Mirrored?)
            else PartialCell(p, m, w, h, y, x, j, i)
  {
  }

  /** A cell whose row reads back as j and column as i is one of the iteration's targets. */
  lemma TargetOfSource(p: Pattern, w: nat, h: nat, y: nat, x: nat, j: nat, i: nat)
    requires Fits(p, w, h) && p.j0 <= j < p.j1 && p.i0 <= i < p.i1 && y < h && x < w
    requires !RowSource(p, h, y).Untouched? && RowSource(p, h, y).n == j
    requires !ColSource(p, w, x).Untouched? && ColSource(p, w, x).n == i
    ensures y == (if RowSource(p, h, y).Mirrored? then h - p.dr - j else j)
    ensures x == (if ColSource(p, w, x).Mirrored? then w - p.dc - i else i)
    ensures ColSource(p, w, x).Mirrored? ==> p.mirrorCols
  {
  }

  /** One iteration of the inner loop carries the loop state from (j, i) to (j, i + 1). */
  lemma FillStep(s: seq<real>, p: Pattern, m: Multiplier, w: nat, h: nat, j: nat, i: nat)
    requires Fits(p, w, h) && |s| == 2 * (w * h) && p.j0 <= j < p.j1 && p.i0 <= i < p.i1
    requires FilledBefore(s, p, m, w, h, j, i)
    ensures FilledBefore(IterationWrites(s, p, m, w, h, j, i), p, m, w, h, j, i + 1)
  {
    forall y: nat, x: nat | y < h && x < w
      ensures GridCell(IterationWrites(s, p, m, w, h, j, i), w, y, x) == PartialCell(p, m, w, h, y, x, j, i + 1)
    {
      FillStepCell(s, p, m, w, h, j, i, y, x);
    }
  }

  /** FillStep at one cell (y, x). */
  lemma FillStepCell(s: seq<real>, p: Pattern, m: Multiplier, w: nat, h: nat, j: nat, i: nat, y: nat, x: nat)
    requires Fits(p, w, h) && |s| == 2 * (w * h) && p.j0 <= j < p.j1 && p.i0 <= i < p.i1
    requires y < h && x < w && GridCell(s, w, y, x) == PartialCell(p, m, w, h, y, x, j, i)
    ensures GridCell(IterationWrites(s, p, m, w, h, j, i), w, y, x) == PartialCell(p, m, w, h, y, x, j, i + 1)
  {
    TargetSources(p, w, h, j, i);
    IterationWritesAt(s, p, m, w, h, j, i, y, x);
    PartialAdvance(p, m, w, h, y, x, j, i);
    var r := RowSource(p, h, y);
    var c := ColSource(p, w, x);
    if !r.Untouched? && !c.Untouched? && r.n == j && c.n == i {
      TargetOfSource(p, w, h, y, x, j, i);
    }
  }

  /** What iteration (j, i) leaves in cell (y, x): the value written there, if any. */
  lemma IterationWritesAt(s: seq<real>, p: Pattern, m: Multiplier, w: nat, h: nat, j: nat, i: nat, y: nat, x: nat)
    requires Fits(p, w, h) && |s| == 2 * (w * h) && p.j0 <= j < p.j1 && p.i0 <= i < p.i1
    requires y < h && x < w
    ensures var yb, xb := h - p.dr - j, w - p.dc - i;
            GridCell(IterationWrites(s, p, m, w, h, j, i), w, y, x) ==
            if y == j && x == i then m(j, i, false, false)
            else if y == yb && x == i then m(j, i, true, false)
            else if p.mirrorCols && y == j && x == xb then m(j, i, false, true)
            else if p.mirrorCols && y == yb && x == xb then m(j, i, true, true)
            else GridCell(s, w, y, x)
  {
    TargetSources(p, w, h, j, i);
    var yb, xb := h - p.dr - j, w - p.dc - i;
    var s1 := WriteGridCell(s, w, j, i, m(j, i, false, false));
    var s2 := WriteGridCell(s1, w, yb, i, m(j, i, true, false));
    WriteThenRead(s, w, h, j, i, m(j, i, false, false), y, x);
    WriteThenRead(s1, w, h, yb, i, m(j, i, true, false), y, x);
    if p.mirrorCols {
      var s3 := WriteGridCell(s2, w, j, xb, m(j, i, false, true));
      WriteThenRead(s2, w, h, j, xb, m(j, i, false, true), y, x);
      WriteThenRead(s3, w, h, yb, xb, m(j, i, true, true), y, x);
    }
  }

  /** Leaving the inner loop: the state after row j is the state before row j + 1. */
  lemma RowDone(s: seq<real>, p: Pattern, m: Multiplier, w: nat, h: nat, j: nat, i: nat)
    requires i >= p.i1 && FilledBefore(s, p, m, w, h, j, i)
    ensures FilledBefore(s, p, m, w, h, j + 1, p.i0)
  {
  }

  /** Leaving the outer loop: every cell holds its final value. */
  lemma LoopsDone(s: seq<real>, p: Pattern, m: Multiplier, w: nat, h: nat, j: nat)
    requires j >= p.j1 && FilledBefore(s, p, m, w, h, j, p.i0)
    ensures forall y: nat, x: nat :: y < h && x < w ==> GridCell(s, w, y, x) == PatternCell(p, m, w, h, y, x)
  {
  }

  /** set(y, x, z) on a buffer of w * h cells. */
  method WriteCellInto(a: array<real>, w: nat, y: nat, x: nat, z: Complex)
    modifies a
    ensures a[..] == WriteGridCell(old(a[..]), w, y, x, z)
  {
    var c := CellIndex(y, x, w);
    if 2 * c + 1 < a.Length {
      a[2 * c] := z.re;
      a[2 * c + 1] := z.im;
    }
  }

  /** The body of the inner loop: the two or four set calls of iteration (j, i). */
  method IterationInto(a: array<real>, w: nat, h: nat, p: Pattern, m: Multiplier, j: nat, i: nat)
    requires Fits(p, w, h) && p.j0 <= j < p.j1 && p.i0 <= i < p.i1
    modifies a
    ensures a[..] == IterationWrites(old(a[..]), p, m, w, h, j, i)
  {
    WriteCellInto(a, w, j, i, m(j, i, false, false));
    WriteCellInto(a, w, h - p.dr - j, i, m(j, i, true, false));
    if p.mirrorCols {
      WriteCellInto(a, w, j, w - p.dc - i, m(j, i, false, true));
      WriteCellInto(a, w, h - p.dr - j, w - p.dc - i, m(j, i, true, true));
    }
  }

  /**
   * The nested loops of a pattern over a grid of zeros: afterwards every
   * cell holds PatternCell.
   */
  method FillPatternInto(a: array<real>, w: nat, h: nat, p: Pattern, m: Multiplier)
    requires a.Length == 2 * (w * h) && Fits(p, w, h)
    requires forall y: nat, x: nat :: y < h && x < w ==> GridCell(a[..], w, y, x) == Zero
    modifies a
    ensures forall y: nat, x: nat :: y < h && x < w ==> GridCell(a[..], w, y, x) == PatternCell(p, m, w, h, y, x)
  {
    var j := p.j0;
    while j < p.j1
      invariant p.j0 <= j
      invariant FilledBefore(a[..], p, m, w, h, j, p.i0)
    {
      var i := p.i0;
      while i < p.i1
        invariant p.i0 <= i
        invariant FilledBefore(a[..], p, m, w, h, j, i)
      {
        FillStep(a[..], p, m, w, h, j, i);
        IterationInto(a, w, h, p, m, j, i);
        i := i + 1;
      }
      RowDone(a[..], p, m, w, h, j, i);
      j := j + 1;
    }
    LoopsDone(a[..], p, m, w, h, j);
  }

  /**
   * The signed wavenumber of index x on an n-point periodic axis: x in the
   * lower half, x - n in the upper half, and zero at the Nyquist index n/2.
   */
  function Wavenumber(x: nat, n: nat): int
  {
    if 2 * x < n then x else if 2 * x == n then 0 else x - n
  }

  /** Two buffers of w x h cells that agree on every cell are equal. */
  lemma GridCellsDetermine(s: seq<real>, t: seq<real>, w: nat, h: nat)
    requires |s| == |t| == 2 * (w * h)
    requires forall y: nat, x: nat :: y < h && x < w ==> GridCell(s, w, y, x) == GridCell(t, w, y, x)
    ensures s == t
  {
    forall c | 0 <= c < |s| / 2
      ensures CellAt(s, c) == CellAt(t, c)
    {
      PositionCell(c, w, h);
      assert GridCell(s, w, c / w, c % w) == GridCell(t, w, c / w, c % w);
    }
    SameCellsSameBuffer(s, t);
  }

  /** Every cell of the cell-wise square of s is the square of s's cell. */
  lemma SquareCells(s: seq<real>, w: nat, h: nat)
    requires |s| == 2 * (w * h)
    ensures forall y: nat, x: nat :: y < h && x < w ==>
      GridCell(Cellwise(CMul, s, s), w, y, x) == CMul(GridCell(s, w, y, x), GridCell(s, w, y, x))
  {
    forall y: nat, x: nat | y < h && x < w
      ensures GridCell(Cellwise(CMul, s, s), w, y, x) == CMul(GridCell(s, w, y, x), GridCell(s, w, y, x))
    {
      CellIndexInRange(y, x, w, h);
      CellwiseAt(CMul, s, s, CellIndex(y, x, w));
    }
  }

  /**
   * A pattern whose multiplier is the square of another's is the cell-wise
   * square of that pattern: filling with m2 gives the same buffer as
   * filling with m and multiplying the result by itself.
   */
  lemma SquarePattern(s: seq<real>, t: seq<real>, w: nat, h: nat, p: Pattern, m: Multiplier, m2: Multiplier)
    requires |s| == |t| == 2 * (w * h)
    requires HoldsPattern(s, w, h, p, m) && HoldsPattern(t, w, h, p, m2)
    requires forall j: nat, i: nat, rm: bool, cm: bool :: m2(j, i, rm, cm) == CMul(m(j, i, rm, cm), m(j, i, rm, cm))
    ensures t == Cellwise(CMul, s, s)
  {
    SquareCells(s, w, h);
    GridCellsDetermine(t, Cellwise(CMul, s, s), w, h);
  }
}
