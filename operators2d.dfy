/**
 * The operator set of a 2-D periodic grid.  Every operator is a field whose
 * spectrum is the multiplier of the operator: applying it to another field
 * is the cell-wise complex product of the two spectra.
 *
 * With finite differences each operator is a 3 x 3 stencil written by
 * setup_kernel around cell (0, 0).  With spectral derivatives the first
 * derivatives are written directly as multipliers i k into the spectral
 * buffer and the second derivatives are the first applied to themselves.
 * The averaging and shift operators are stencils in both modes.
 */
module Operators {
  import opened Grid
  import opened Cells
  import opened Reductions
  import opened FftPlans
  import opened Kernels
  import opened SpectralPatterns
  import opened DataArrays
  import opened ComplexArrays

  /* ---------- the stencils, as written (row 0 is the higher y) ---------- */

  const AvgForwardX: seq<seq<real>> := [[0.0, 0.0, 0.0], [0.0, 1.0, 1.0], [0.0, 0.0, 0.0]]
  const AvgForwardY: seq<seq<real>> := [[0.0, 1.0, 0.0], [0.0, 1.0, 0.0], [0.0, 0.0, 0.0]]
  const AvgBackwardX: seq<seq<real>> := [[0.0, 0.0, 0.0], [1.0, 1.0, 0.0], [0.0, 0.0, 0.0]]
  const AvgBackwardY: seq<seq<real>> := [[0.0, 0.0, 0.0], [0.0, 1.0, 0.0], [0.0, 1.0, 0.0]]

  const DiffCentralX: seq<seq<real>> := [[0.0, 0.0, 0.0], [-1.0, 0.0, 1.0], [0.0, 0.0, 0.0]]
  const DiffCentralY: seq<seq<real>> := [[0.0, 1.0, 0.0], [0.0, 0.0, 0.0], [0.0, -1.0, 0.0]]
  const DiffForwardX: seq<seq<real>> := [[0.0, 0.0, 0.0], [0.0, -1.0, 1.0], [0.0, 0.0, 0.0]]
  const DiffForwardY: seq<seq<real>> := [[0.0, 1.0, 0.0], [0.0, -1.0, 0.0], [0.0, 0.0, 0.0]]
  const DiffBackwardX: seq<seq<real>> := [[0.0, 0.0, 0.0], [-1.0, 1.0, 0.0], [0.0, 0.0, 0.0]]
  const DiffBackwardY: seq<seq<real>> := [[0.0, 0.0, 0.0], [0.0, 1.0, 0.0], [0.0, -1.0, 0.0]]
  const Diff2CentralX: seq<seq<real>> := [[0.0, 0.0, 0.0], [1.0, -2.0, 1.0], [0.0, 0.0, 0.0]]
  const Diff2CentralY: seq<seq<real>> := [[0.0, 1.0, 0.0], [0.0, -2.0, 0.0], [0.0, 1.0, 0.0]]

  const ShiftLeft: seq<seq<real>> := [[0.0, 0.0, 0.0], [0.0, 0.0, 1.0], [0.0, 0.0, 0.0]]
  const ShiftRight: seq<seq<real>> := [[0.0, 0.0, 0.0], [1.0, 0.0, 0.0], [0.0, 0.0, 0.0]]
  const ShiftUp: seq<seq<real>> := [[0.0, 0.0, 0.0], [0.0, 0.0, 0.0], [0.0, 1.0, 0.0]]
  const ShiftDown: seq<seq<real>> := [[0.0, 1.0, 0.0], [0.0, 0.0, 0.0], [0.0, 0.0, 0.0]]

  /** The sum of the nine entries of a 3 x 3 stencil. */
  function StencilSum(k: seq<seq<real>>): real
    requires IsSquare(k, 3)
  {
    k[0][0] + k[0][1] + k[0][2] + k[1][0] + k[1][1] + k[1][2] + k[2][0] + k[2][1] + k[2][2]
  }

  /** Only the middle row and the middle column of the stencil are non-zero. */
  predicate CrossShaped(k: seq<seq<real>>)
    requires IsSquare(k, 3)
  {
    k[0][0] == 0.0 && k[0][2] == 0.0 && k[2][0] == 0.0 && k[2][2] == 0.0
  }

  /** The buffer setup_kernel leaves for a 3 x 3 stencil and a scale. */
  function Placed(k: seq<seq<real>>, scale: real, res0: nat, res1: nat): (r: seq<real>)
    requires IsSquare(k, 3) && res0 > 0
    ensures |r| == res0 * res1
  {
    KernelBuffer(Mirror(k, 3, scale), 3, res0, res1)
  }

  /** The stencil row that lands on grid row y of n >= 3 rows, or -1. */
  function StencilRow(y: nat, n: nat): int
  {
    if y == 0 then 1 else if y == 1 then 2 else if y == n - 1 then 0 else -1
  }

  /** The entry of an (unmirrored) stencil row that lands on grid column x of n >= 3, or -1. */
  function StencilCol(x: nat, n: nat): int
  {
    if x == 0 then 1 else if x == 1 then 0 else if x == n - 1 then 2 else -1
  }

  /** What cell (y, x) of a w x h grid receives from a 3 x 3 stencil. */
  function StencilValue(k: seq<seq<real>>, scale: real, w: nat, h: nat, y: nat, x: nat): real
    requires IsSquare(k, 3)
  {
    if StencilRow(y, h) >= 0 && StencilCol(x, w) >= 0 then k[StencilRow(y, h)][StencilCol(x, w)] * scale else 0.0
  }

  /**
   * On a grid of at least 3 x 3 cells the centre of the stencil lands on
   * cell (0, 0), its upper row on the last grid row, its lower row on
   * grid row 1, its right column on grid column res0-1 and its left column
   * on grid column 1 (the mirror in x); every other cell is zero.
   */
  lemma PlacedCell(k: seq<seq<real>>, scale: real, res0: nat, res1: nat, y: nat, x: nat)
    requires IsSquare(k, 3) && res0 >= 3 && res1 >= 3 && y < res1 && x < res0
    ensures CellIndex(y, x, res0) < res0 * res1
    ensures Placed(k, scale, res0, res1)[CellIndex(y, x, res0)] == StencilValue(k, scale, res0, res1, y, x)
  {
    KernelIsPeriodicPlacement(Mirror(k, 3, scale), 3, res0, res1, y, x);
    MirroredEntry(k, scale, res0, res1, y, x);
  }

  /** The mirrored stencil entry the wrap selects is the unmirrored entry the cell's row and column name. */
  lemma MirroredEntry(k: seq<seq<real>>, scale: real, res0: nat, res1: nat, y: nat, x: nat)
    requires IsSquare(k, 3) && res0 >= 3 && res1 >= 3 && y < res1 && x < res0
    ensures (if WrapIndex(y, 3, res1) < 3 && WrapIndex(x, 3, res0) < 3
             then Mirror(k, 3, scale)[WrapIndex(y, 3, res1)][WrapIndex(x, 3, res0)]
             else 0.0) ==
            (if StencilRow(y, res1) >= 0 && StencilCol(x, res0) >= 0
             then k[StencilRow(y, res1)][StencilCol(x, res0)] * scale
             else 0.0)
  {
    var wy, wx := WrapIndex(y, 3, res1), WrapIndex(x, 3, res0);
    WrapThree(y, res1);
    WrapThree(x, res0);
    if wy < 3 && wx < 3 {
      MirrorAt(k, scale, wy, wx);
    }
  }

  lemma MirrorAt(k: seq<seq<real>>, scale: real, j: nat, i: nat)
    requires IsSquare(k, 3) && j < 3 && i < 3
    ensures Mirror(k, 3, scale)[j][i] == k[j][2 - i] * scale
  {
  }

  /** For a 3 x 3 stencil, the wrapped index is the stencil row (and the mirrored column). */
  lemma WrapThree(y: nat, n: nat)
    requires n >= 3 && y < n
    ensures WrapIndex(y, 3, n) < 3 <==> StencilRow(y, n) >= 0
    ensures WrapIndex(y, 3, n) < 3 ==> WrapIndex(y, 3, n) == StencilRow(y, n) && 2 - WrapIndex(y, 3, n) == StencilCol(y, n)
  {
    WrapCover(y, 3, n);
  }

  /**
   * On a grid of at least 3 x 3 cells nothing is skipped or overwritten:
   * the placed buffer sums to scale times the sum of the stencil.
   */
  lemma PlacedKernelSum(k: seq<seq<real>>, scale: real, res0: nat, res1: nat)
    requires IsSquare(k, 3) && CrossShaped(k) && res0 >= 3 && res1 >= 3
    ensures Sum(Placed(k, scale, res0, res1)) == scale * StencilSum(k)
  {
    PlacedCells(k, scale, res0, res1);
    CrossSum(Placed(k, scale, res0, res1), k, scale, res0, res1);
  }

  /** PlacedCell for every cell at once. */
  lemma PlacedCells(k: seq<seq<real>>, scale: real, res0: nat, res1: nat)
    requires IsSquare(k, 3) && res0 >= 3 && res1 >= 3
    ensures |Placed(k, scale, res0, res1)| == res0 * res1
    ensures forall y: nat, x: nat :: y < res1 && x < res0 ==>
      CellIndex(y, x, res0) < res0 * res1 &&
      Placed(k, scale, res0, res1)[CellIndex(y, x, res0)] == StencilValue(k, scale, res0, res1, y, x)
  {
    forall y: nat, x: nat | y < res1 && x < res0
      ensures CellIndex(y, x, res0) < res0 * res1 &&
        Placed(k, scale, res0, res1)[CellIndex(y, x, res0)] == StencilValue(k, scale, res0, res1, y, x)
    {
      PlacedCell(k, scale, res0, res1, y, x);
    }
  }

  /** A buffer holding a placed cross-shaped stencil sums to scale times the stencil's sum. */
  lemma CrossSum(kb: seq<real>, k: seq<seq<real>>, scale: real, w: nat, h: nat)
    requires IsSquare(k, 3) && CrossShaped(k) && w >= 3 && h >= 3 && |kb| == w * h
    requires forall y: nat, x: nat :: y < h && x < w ==>
      CellIndex(y, x, w) < |kb| && kb[CellIndex(y, x, w)] == StencilValue(k, scale, w, h, y, x)
    ensures Sum(kb) == scale * StencilSum(k)
  {
    forall p | 0 <= p < |kb|
      ensures kb[p] == FiveCells(CrossCells(w, h), CrossValues(k, scale), p)
    {
      CrossCellAt(kb, k, scale, w, h, p);
    }
    CrossPositions(w, h);
    FiveCellsSum(kb, CrossCells(w, h), CrossValues(k, scale));
  }

  /** The five cells a cross-shaped stencil reaches lie in this order in the buffer. */
  lemma CrossPositions(w: nat, h: nat)
    requires w >= 3 && h >= 3
    ensures CellIndex(0, 0, w) < CellIndex(0, 1, w) < CellIndex(0, w - 1, w) < CellIndex(1, 0, w) < CellIndex(h - 1, 0, w) < w * h
  {
    MulMonotone(2, h - 1, w);
    CellIndexInRange(h - 1, 0, w, h);
  }

  /** The five positions a cross-shaped stencil reaches, in buffer order. */
  function CrossCells(w: nat, h: nat): (a: seq<nat>)
    requires w >= 3 && h >= 3
    ensures |a| == 5
  {
    [CellIndex(0, 0, w), CellIndex(0, 1, w), CellIndex(0, w - 1, w), CellIndex(1, 0, w), CellIndex(h - 1, 0, w)]
  }

  /** The values a cross-shaped stencil puts there. */
  function CrossValues(k: seq<seq<real>>, scale: real): (v: seq<real>)
    requires IsSquare(k, 3)
    ensures |v| == 5
  {
    [k[1][1] * scale, k[1][0] * scale, k[1][2] * scale, k[2][1] * scale, k[0][1] * scale]
  }

  /** v[i] at position a[i], zero elsewhere. */
  function FiveCells(a: seq<nat>, v: seq<real>, p: nat): real
    requires |a| == 5 && |v| == 5
  {
    if p == a[0] then v[0] else if p == a[1] then v[1] else if p == a[2] then v[2]
    else if p == a[3] then v[3] else if p == a[4] then v[4] else 0.0
  }

  /** A buffer that is zero except at five increasing positions sums to the five values. */
  lemma FiveCellsSum(kb: seq<real>, a: seq<nat>, v: seq<real>)
    requires |a| == 5 && |v| == 5 && a[0] < a[1] < a[2] < a[3] < a[4] < |kb|
    requires forall p :: 0 <= p < |kb| ==> kb[p] == FiveCells(a, v, p)
    ensures Sum(kb) == v[0] + v[1] + v[2] + v[3] + v[4]
  {
    var u0 := Fill(|kb|, 0.0);
    var u1 := u0[a[0] := v[0]];
    var u2 := u1[a[1] := v[1]];
    var u3 := u2[a[2] := v[2]];
    var u4 := u3[a[3] := v[3]];
    var u5 := u4[a[4] := v[4]];
    assert kb == u5;
    SumOfConstant(u0, 0.0);
    SumUpdate(u0, a[0], v[0]);
    SumUpdate(u1, a[1], v[1]);
    SumUpdate(u2, a[2], v[2]);
    SumUpdate(u3, a[3], v[3]);
    SumUpdate(u4, a[4], v[4]);
  }

  /** One cell of a placed cross-shaped stencil, by flat position. */
  lemma CrossCellAt(kb: seq<real>, k: seq<seq<real>>, scale: real, w: nat, h: nat, p: nat)
    requires IsSquare(k, 3) && CrossShaped(k) && w >= 3 && h >= 3 && |kb| == w * h && p < w * h
    requires forall y: nat, x: nat :: y < h && x < w ==>
      CellIndex(y, x, w) < |kb| && kb[CellIndex(y, x, w)] == StencilValue(k, scale, w, h, y, x)
    ensures kb[p] == FiveCells(CrossCells(w, h), CrossValues(k, scale), p)
  {
    PositionCell(p, w, h);
    var y, x := p / w, p % w;
    assert kb[CellIndex(y, x, w)] == StencilValue(k, scale, w, h, y, x);
    CrossValueAt(k, scale, w, h, y, x);
  }

  /** The stencil value of cell (y, x) is what the five cross cells give its flat position. */
  lemma CrossValueAt(k: seq<seq<real>>, scale: real, w: nat, h: nat, y: nat, x: nat)
    requires IsSquare(k, 3) && CrossShaped(k) && w >= 3 && h >= 3 && y < h && x < w
    ensures StencilValue(k, scale, w, h, y, x) == FiveCells(CrossCells(w, h), CrossValues(k, scale), CellIndex(y, x, w))
  {
    CellIndexInjective(y, x, 0, 0, w);
    CellIndexInjective(y, x, 0, 1, w);
    CellIndexInjective(y, x, 0, w - 1, w);
    CellIndexInjective(y, x, 1, 0, w);
    CellIndexInjective(y, x, h - 1, 0, w);
  }

  /** Every x-derivative stencil, placed on a grid of at least 3 x 3 cells, sums to zero. */
  lemma XDerivativeStencilsSumToZero(res0: nat, res1: nat, h0: real)
    requires res0 >= 3 && res1 >= 3 && h0 != 0.0
    ensures Sum(Placed(DiffCentralX, CentralScale(h0), res0, res1)) == 0.0
    ensures Sum(Placed(DiffForwardX, OneSidedScale(h0), res0, res1)) == 0.0
    ensures Sum(Placed(DiffBackwardX, OneSidedScale(h0), res0, res1)) == 0.0
    ensures Sum(Placed(Diff2CentralX, SecondScale(h0), res0, res1)) == 0.0
  {
    assert IsSquare(DiffCentralX, 3) && CrossShaped(DiffCentralX) && StencilSum(DiffCentralX) == 0.0;
    PlacedZeroSum(DiffCentralX, CentralScale(h0), res0, res1);
    assert IsSquare(DiffForwardX, 3) && CrossShaped(DiffForwardX) && StencilSum(DiffForwardX) == 0.0;
    PlacedZeroSum(DiffForwardX, OneSidedScale(h0), res0, res1);
    assert IsSquare(DiffBackwardX, 3) && CrossShaped(DiffBackwardX) && StencilSum(DiffBackwardX) == 0.0;
    PlacedZeroSum(DiffBackwardX, OneSidedScale(h0), res0, res1);
    assert IsSquare(Diff2CentralX, 3) && CrossShaped(Diff2CentralX) && StencilSum(Diff2CentralX) == 0.0;
    PlacedZeroSum(Diff2CentralX, SecondScale(h0), res0, res1);
  }

  /** Every y-derivative stencil, placed on a grid of at least 3 x 3 cells, sums to zero. */
  lemma YDerivativeStencilsSumToZero(res0: nat, res1: nat, h1: real)
    requires res0 >= 3 && res1 >= 3 && h1 != 0.0
    ensures Sum(Placed(DiffCentralY, CentralScale(h1), res0, res1)) == 0.0
    ensures Sum(Placed(DiffForwardY, OneSidedScale(h1), res0, res1)) == 0.0
    ensures Sum(Placed(DiffBackwardY, OneSidedScale(h1), res0, res1)) == 0.0
    ensures Sum(Placed(Diff2CentralY, SecondScale(h1), res0, res1)) == 0.0
  {
    assert IsSquare(DiffCentralY, 3) && CrossShaped(DiffCentralY) && StencilSum(DiffCentralY) == 0.0;
    PlacedZeroSum(DiffCentralY, CentralScale(h1), res0, res1);
    assert IsSquare(DiffForwardY, 3) && CrossShaped(DiffForwardY) && StencilSum(DiffForwardY) == 0.0;
    PlacedZeroSum(DiffForwardY, OneSidedScale(h1), res0, res1);
    assert IsSquare(DiffBackwardY, 3) && CrossShaped(DiffBackwardY) && StencilSum(DiffBackwardY) == 0.0;
    PlacedZeroSum(DiffBackwardY, OneSidedScale(h1), res0, res1);
    assert IsSquare(Diff2CentralY, 3) && CrossShaped(Diff2CentralY) && StencilSum(Diff2CentralY) == 0.0;
    PlacedZeroSum(Diff2CentralY, SecondScale(h1), res0, res1);
  }

  /** A stencil whose entries cancel places a buffer that sums to zero, whatever the scale. */
  lemma PlacedZeroSum(k: seq<seq<real>>, scale: real, res0: nat, res1: nat)
    requires IsSquare(k, 3) && CrossShaped(k) && StencilSum(k) == 0.0 && res0 >= 3 && res1 >= 3
    ensures Sum(Placed(k, scale, res0, res1)) == 0.0
  {
    PlacedKernelSum(k, scale, res0, res1);
  }

  /** The averaging stencils, at scale 0.5, sum to one. */
  lemma AveragesSumToOne(res0: nat, res1: nat)
    requires res0 >= 3 && res1 >= 3
    ensures Sum(Placed(AvgForwardX, 0.5, res0, res1)) == 1.0
    ensures Sum(Placed(AvgForwardY, 0.5, res0, res1)) == 1.0
    ensures Sum(Placed(AvgBackwardX, 0.5, res0, res1)) == 1.0
    ensures Sum(Placed(AvgBackwardY, 0.5, res0, res1)) == 1.0
  {
    assert Sum(Placed(AvgForwardX, 0.5, res0, res1)) == 1.0 by {
      assert IsSquare(AvgForwardX, 3) && CrossShaped(AvgForwardX) && StencilSum(AvgForwardX) == 2.0;
      PlacedKernelSum(AvgForwardX, 0.5, res0, res1);
    }
    assert Sum(Placed(AvgForwardY, 0.5, res0, res1)) == 1.0 by {
      assert IsSquare(AvgForwardY, 3) && CrossShaped(AvgForwardY) && StencilSum(AvgForwardY) == 2.0;
      PlacedKernelSum(AvgForwardY, 0.5, res0, res1);
    }
    assert Sum(Placed(AvgBackwardX, 0.5, res0, res1)) == 1.0 by {
      assert IsSquare(AvgBackwardX, 3) && CrossShaped(AvgBackwardX) && StencilSum(AvgBackwardX) == 2.0;
      PlacedKernelSum(AvgBackwardX, 0.5, res0, res1);
    }
    assert Sum(Placed(AvgBackwardY, 0.5, res0, res1)) == 1.0 by {
      assert IsSquare(AvgBackwardY, 3) && CrossShaped(AvgBackwardY) && StencilSum(AvgBackwardY) == 2.0;
      PlacedKernelSum(AvgBackwardY, 0.5, res0, res1);
    }
  }

  /** The shift stencils, at scale 1, sum to one. */
  lemma ShiftsSumToOne(res0: nat, res1: nat)
    requires res0 >= 3 && res1 >= 3
    ensures Sum(Placed(ShiftLeft, 1.0, res0, res1)) == 1.0
    ensures Sum(Placed(ShiftRight, 1.0, res0, res1)) == 1.0
    ensures Sum(Placed(ShiftUp, 1.0, res0, res1)) == 1.0
    ensures Sum(Placed(ShiftDown, 1.0, res0, res1)) == 1.0
  {
    assert Sum(Placed(ShiftLeft, 1.0, res0, res1)) == 1.0 by {
      assert IsSquare(ShiftLeft, 3) && CrossShaped(ShiftLeft) && StencilSum(ShiftLeft) == 1.0;
      PlacedKernelSum(ShiftLeft, 1.0, res0, res1);
    }
    assert Sum(Placed(ShiftRight, 1.0, res0, res1)) == 1.0 by {
      assert IsSquare(ShiftRight, 3) && CrossShaped(ShiftRight) && StencilSum(ShiftRight) == 1.0;
      PlacedKernelSum(ShiftRight, 1.0, res0, res1);
    }
    assert Sum(Placed(ShiftUp, 1.0, res0, res1)) == 1.0 by {
      assert IsSquare(ShiftUp, 3) && CrossShaped(ShiftUp) && StencilSum(ShiftUp) == 1.0;
      PlacedKernelSum(ShiftUp, 1.0, res0, res1);
    }
    assert Sum(Placed(ShiftDown, 1.0, res0, res1)) == 1.0 by {
      assert IsSquare(ShiftDown, 3) && CrossShaped(ShiftDown) && StencilSum(ShiftDown) == 1.0;
      PlacedKernelSum(ShiftDown, 1.0, res0, res1);
    }
  }

  /**
   * Each shift is a unit impulse next to cell (0, 0): the product of
   * spectra with it moves a field by one cell.  shift_left has its 1 at
   * column res0-1, shift_right at column 1, shift_up at row 1 and
   * shift_down at row res1-1.
   */
  lemma ShiftsAreUnitImpulses(res0: nat, res1: nat, y: nat, x: nat)
    requires res0 >= 3 && res1 >= 3 && y < res1 && x < res0
    ensures CellIndex(y, x, res0) < res0 * res1
    ensures Placed(ShiftLeft, 1.0, res0, res1)[CellIndex(y, x, res0)] == if y == 0 && x == res0 - 1 then 1.0 else 0.0
    ensures Placed(ShiftRight, 1.0, res0, res1)[CellIndex(y, x, res0)] == if y == 0 && x == 1 then 1.0 else 0.0
    ensures Placed(ShiftUp, 1.0, res0, res1)[CellIndex(y, x, res0)] == if y == 1 && x == 0 then 1.0 else 0.0
    ensures Placed(ShiftDown, 1.0, res0, res1)[CellIndex(y, x, res0)] == if y == res1 - 1 && x == 0 then 1.0 else 0.0
  {
    PlacedCell(ShiftLeft, 1.0, res0, res1, y, x);
    PlacedCell(ShiftRight, 1.0, res0, res1, y, x);
    PlacedCell(ShiftUp, 1.0, res0, res1, y, x);
    PlacedCell(ShiftDown, 1.0, res0, res1, y, x);
  }

  /**
   * The central x difference holds -1/(2h) at column 1 and 1/(2h) at
   * column res0-1 of row 0, and zero elsewhere: the same cells as the
   * complex grid's finite-difference x derivative.
   */
  lemma CentralDiffXMatchesComplexStencil(res0: nat, res1: nat, h: real, y: nat, x: nat)
    requires res0 >= 3 && res1 >= 3 && h != 0.0 && y < res1 && x < res0
    ensures CellIndex(y, x, res0) < res0 * res1
    ensures Complex(Placed(DiffCentralX, CentralScale(h), res0, res1)[CellIndex(y, x, res0)], 0.0) ==
            GridCell(DiffXStencil(res0, res1, h), res0, y, x)
  {
    PlacedCell(DiffCentralX, CentralScale(h), res0, res1, y, x);
    var z := FillCells(res0 * res1, Zero);
    var s := WriteGridCell(z, res0, 0, 1, Complex(-CentralScale(h), 0.0));
    WriteThenRead(z, res0, res1, 0, 1, Complex(-CentralScale(h), 0.0), y, x);
    WriteThenRead(s, res0, res1, 0, res0 - 1, Complex(CentralScale(h), 0.0), y, x);
    CellIndexInRange(y, x, res0, res1);
    FillCellsReadsBack(res0 * res1, Zero, CellIndex(y, x, res0));
  }

  /* ---------- the spectral derivatives ---------- */

  /**
   * The loops of the spectral diff_c_x: rows j < res1/2 mirrored to row
   * res1-1-j, columns i < res0/2 of the res0/2+1 spectral columns, no
   * column mirror.
   */
  function RealDiffXPattern(res0: nat, res1: nat): (p: Pattern)
    ensures Fits(p, SpecWidth(res0), res1)
  {
    Pattern(0, res1 / 2, 1, 0, res0 / 2, 0, false)
  }

  /**
   * The loops of the spectral diff_c_y: rows 1 <= j < res1/2 (the source
   * counts j+1 from 0) mirrored to row res1-j, columns i < res0/2.
   */
  function RealDiffYPattern(res0: nat, res1: nat): (p: Pattern)
    ensures Fits(p, SpecWidth(res0), res1)
  {
    Pattern(1, res1 / 2, 0, 0, res0 / 2, 0, false)
  }

  /** The multiplier scale of the spectral first derivative on an axis of length L: 2 pi / L. */
  function WaveScale(L: real): real
    requires L != 0.0
  {
    2.0 * Pi / L
  }

  /**
   * For even resolutions the spectral x derivative holds i times the
   * signed x wavenumber times 2 pi / L0 in every row: x below the Nyquist
   * column and zero in the mean and Nyquist columns.
   */
  lemma RealDiffXIsWavenumber(res0: nat, res1: nat, scale: real, y: nat, x: nat)
    requires res0 % 2 == 0 && res1 % 2 == 0 && y < res1 && x < SpecWidth(res0)
    ensures PatternCell(RealDiffXPattern(res0, res1), DiffXMultiplier(scale), SpecWidth(res0), res1, y, x) ==
            Complex(0.0, (Wavenumber(x, res0) as real) * scale)
  {
    var p := RealDiffXPattern(res0, res1);
    var w := SpecWidth(res0);
    if y < res1 / 2 {
      assert RowSource(p, res1, y) == Direct(y);
    } else {
      assert RowSource(p, res1, y) == Mirrored(res1 - 1 - y);
    }
    if x < res0 / 2 {
      assert ColSource(p, w, x) == Direct(x);
    } else {
      assert ColSource(p, w, x) == Untouched;
    }
  }

  /**
   * For an even number of rows the spectral y derivative holds i times the
   * signed y wavenumber times 2 pi / L1 in the columns below res0/2; the
   * column res0/2 stays zero.
   */
  lemma RealDiffYIsWavenumber(res0: nat, res1: nat, scale: real, y: nat, x: nat)
    requires res1 % 2 == 0 && y < res1 && x < SpecWidth(res0)
    ensures PatternCell(RealDiffYPattern(res0, res1), DiffYMultiplier(scale), SpecWidth(res0), res1, y, x) ==
            if x < res0 / 2 then Complex(0.0, (Wavenumber(y, res1) as real) * scale) else Zero
  {
    var p := RealDiffYPattern(res0, res1);
    var w := SpecWidth(res0);
    if 1 <= y < res1 / 2 {
      assert RowSource(p, res1, y) == Direct(y);
    } else if res1 / 2 < y {
      assert RowSource(p, res1, y) == Mirrored(res1 - y);
    } else {
      assert RowSource(p, res1, y) == Untouched;
    }
    if x < res0 / 2 {
      assert ColSource(p, w, x) == Direct(x);
    } else {
      assert ColSource(p, w, x) == Untouched;
    }
  }

  /**
   * At every resolution, whatever the multiplier, the x derivative leaves
   * column res0/2 zero and the y derivative leaves rows 0 and res1/2 and
   * column res0/2 zero.
   */
  lemma RealDiffPatternsZeroLines(res0: nat, res1: nat, m: Multiplier, y: nat, x: nat)
    requires y < res1 && x < SpecWidth(res0)
    ensures x == res0 / 2 ==> PatternCell(RealDiffXPattern(res0, res1), m, SpecWidth(res0), res1, y, x) == Zero
    ensures (y == 0 || y == res1 / 2 || x == res0 / 2) ==>
      PatternCell(RealDiffYPattern(res0, res1), m, SpecWidth(res0), res1, y, x) == Zero
  {
    var w := SpecWidth(res0);
    if x == res0 / 2 {
      assert ColSource(RealDiffXPattern(res0, res1), w, x) == Untouched;
      assert ColSource(RealDiffYPattern(res0, res1), w, x) == Untouched;
    }
    if y == 0 || y == res1 / 2 {
      assert RowSource(RealDiffYPattern(res0, res1), res1, y) == Untouched;
    }
  }

  /**
   * Multiplying a pattern cell-wise by itself gives the pattern of the
   * squared multiplier: the cells no iteration reaches stay zero.
   */
  lemma SquaredPatternHolds(s: seq<real>, w: nat, h: nat, p: Pattern, m: Multiplier, m2: Multiplier)
    requires |s| == 2 * (w * h) && HoldsPattern(s, w, h, p, m)
    requires forall j: nat, i: nat, rm: bool, cm: bool :: m2(j, i, rm, cm) == CMul(m(j, i, rm, cm), m(j, i, rm, cm))
    ensures HoldsPattern(Cellwise(CMul, s, s), w, h, p, m2)
  {
    SquareCells(s, w, h);
    forall y: nat, x: nat | y < h && x < w
      ensures GridCell(Cellwise(CMul, s, s), w, y, x) == PatternCell(p, m2, w, h, y, x)
    {
      SquaredCell(p, m, m2, w, h, y, x);
    }
  }

  /** SquaredPatternHolds at one cell. */
  lemma SquaredCell(p: Pattern, m: Multiplier, m2: Multiplier, w: nat, h: nat, y: nat, x: nat)
    requires forall j: nat, i: nat, rm: bool, cm: bool :: m2(j, i, rm, cm) == CMul(m(j, i, rm, cm), m(j, i, rm, cm))
    ensures CMul(PatternCell(p, m, w, h, y, x), PatternCell(p, m, w, h, y, x)) == PatternCell(p, m2, w, h, y, x)
  {
    var r := RowSource(p, h, y);
    var c := ColSource(p, w, x);
    if !r.Untouched? && !c.Untouched? {
      assert m2(r.n, c.n, r.Mirrored?, c.Mirrored?) == CMul(m(r.n, c.n, r.Mirrored?, c.Mirrored?), m(r.n, c.n, r.Mirrored?, c.Mirrored?));
    }
  }

  /* ---------- building the operator fields ---------- */

  /** A field set up by setup_kernel from the 3 x 3 stencil k and the scale. */
  ghost predicate HoldsKernel(d: DataArray, k: seq<seq<real>>, scale: real, res0: nat, res1: nat, fft: RealFft)
    reads d, d.cart, d.spec
  {
    IsSquare(k, 3) && res0 > 0 && d.Valid() && d.res0 == res0 && d.res1 == res1 &&
    d.cartValid && d.specValid && !d.aliasingScaled && !d.temporaryData &&
    Holds(d.cart, Placed(k, scale, res0, res1)) && Holds(d.spec, fft.forward(res0, res1, Placed(k, scale, res0, res1)))
  }

  /** The array a holds exactly the values c. */
  ghost predicate Holds(a: array?<real>, c: seq<real>)
    reads a
  {
    a != null && a.Length == |c| && forall i :: 0 <= i < a.Length ==> a[i] == c[i]
  }

  /** A field whose spectrum holds the pattern p with the multiplier m, and nothing valid on the Cartesian side. */
  ghost predicate HoldsSpectrum(d: DataArray, p: Pattern, m: Multiplier, res0: nat, res1: nat)
    reads d, d.spec
  {
    d.Valid() && d.res0 == res0 && d.res1 == res1 &&
    d.specValid && !d.cartValid && !d.aliasingScaled && !d.temporaryData &&
    HoldsPattern(d.spec[..], SpecWidth(res0), res1, p, m)
  }

  /** A field constructed for the resolution and never set up: neither side holds valid data. */
  ghost predicate Unset(d: DataArray, res0: nat, res1: nat)
    reads d
  {
    d.Valid() && d.res0 == res0 && d.res1 == res1 &&
    !d.cartValid && !d.specValid && !d.aliasingScaled && !d.temporaryData
  }

  /** d2 holds on the spectral side the cell-wise square of the spectrum of d. */
  ghost predicate Squares(d2: DataArray, d: DataArray)
    reads d2, d2.spec, d, d.spec
  {
    d2.Valid() && d2.res0 == d.res0 && d2.res1 == d.res1 &&
    d2.specValid && !d2.cartValid && !d2.aliasingScaled && !d2.temporaryData &&
    d.spec != null && d.spec.Length % 2 == 0 && d2.spec[..] == Cellwise(CMul, d.spec[..], d.spec[..])
  }

  /** The main plan does not exist yet, or exists for this resolution with a counter that is not negative. */
  ghost predicate PlanReady(reg: FftRegistry, res0: nat, res1: nat)
    reads reg
  {
    reg.main.Absent? || (reg.main.refCounter >= 0 && reg.main.plan == PlanFor(res0, res1))
  }

  /** A member constructed with the resolution, then set up with a stencil. */
  method NewKernelOperator(k: seq<seq<real>>, scale: real, res0: nat, res1: nat, reg: FftRegistry) returns (d: DataArray)
    requires IsSquare(k, 3) && res0 > 0 && res1 > 0
    requires PlanReady(reg, res0, res1) && FftPlans.Conforms(reg.fft)
    modifies reg`main
    ensures fresh(d) && fresh(d.cart) && fresh(d.spec)
    ensures HoldsKernel(d, k, scale, res0, res1, reg.fft)
    ensures reg.main == AfterAcquire(old(reg.main), PlanFor(res0, res1))
  {
    d := new DataArray(res0, res1, reg);
    d.SetupKernel(k, 3, scale, reg);
  }

  /**
   * A member constructed with the resolution, then filled as a spectral
   * derivative: spec_setAll(0, 0) and the nested spec_set loops.
   */
  method NewSpectralOperator(p: Pattern, m: Multiplier, res0: nat, res1: nat, reg: FftRegistry) returns (d: DataArray)
    requires res0 > 0 && res1 > 0 && Fits(p, SpecWidth(res0), res1)
    modifies reg`main
    ensures fresh(d) && fresh(d.cart) && fresh(d.spec)
    ensures HoldsSpectrum(d, p, m, res0, res1)
    ensures reg.main == AfterAcquire(old(reg.main), PlanFor(res0, res1))
  {
    d := new DataArray(res0, res1, reg);
    d.SetAllSpec(0.0, 0.0);
    var w := SpecWidth(res0);
    SpecLengthIsCells(res0, res1);
    forall y: nat, x: nat | y < res1 && x < w
      ensures GridCell(d.spec[..], w, y, x) == Zero
    {
      CellIndexInRange(y, x, w, res1);
      FillCellsReadsBack(w * res1, Zero, CellIndex(y, x, w));
    }
    FillPatternInto(d.spec, w, res1, p, m);
  }

  /**
   * A member constructed with the resolution, then assigned d(d): the
   * operator applied to itself into a temporary, moved into the member by
   * operator=, and the temporary destroyed.
   */
  method NewSquaredOperator(d: DataArray, reg: FftRegistry) returns (d2: DataArray)
    requires d.Valid() && d.specValid && !d.aliasingScaled
    requires reg.main.Present? && reg.main.refCounter >= 1 && reg.main.plan == PlanFor(d.res0, d.res1)
    modifies d`specValid, d.spec, reg
    ensures fresh(d2) && fresh(d2.cart) && fresh(d2.spec)
    ensures d.Valid() && d.specValid && d.spec[..] == old(d.spec[..])
    ensures d2.Valid() && d2.res0 == d.res0 && d2.res1 == d.res1
    ensures d2.specValid && !d2.cartValid && !d2.aliasingScaled && !d2.temporaryData
    ensures d2.spec[..] == Cellwise(CMul, d.spec[..], d.spec[..])
    ensures reg.main == AfterAcquire(old(reg.main), PlanFor(d.res0, d.res1))
    ensures reg.aliasing == old(reg.aliasing)
  {
    d2 := new DataArray(d.res0, d.res1, reg);
    ghost var s := d.spec[..];
    var t := d.ApplyOperator(d, reg);
    assert t.spec[..] == Cellwise(CMul, s, s);
    d2.Assign(t);
    t.Destroy(reg);
  }

  /** The four averaging operators of the constructor, at scale 1/2. */
  method NewAverages(res0: nat, res1: nat, reg: FftRegistry) returns (fwx: DataArray, fwy: DataArray, bwx: DataArray, bwy: DataArray)
    requires res0 > 0 && res1 > 0
    requires PlanReady(reg, res0, res1) && FftPlans.Conforms(reg.fft)
    modifies reg`main
    ensures fresh(fwx) && fresh(fwx.cart) && fresh(fwx.spec) && fresh(fwy) && fresh(fwy.cart) && fresh(fwy.spec)
    ensures fresh(bwx) && fresh(bwx.cart) && fresh(bwx.spec) && fresh(bwy) && fresh(bwy.cart) && fresh(bwy.spec)
    ensures HoldsKernel(fwx, AvgForwardX, 0.5, res0, res1, reg.fft)
    ensures HoldsKernel(fwy, AvgForwardY, 0.5, res0, res1, reg.fft)
    ensures HoldsKernel(bwx, AvgBackwardX, 0.5, res0, res1, reg.fft)
    ensures HoldsKernel(bwy, AvgBackwardY, 0.5, res0, res1, reg.fft)
    ensures reg.main == Present(Count(old(reg.main)) + 4, PlanFor(res0, res1))
  {
    fwx := NewKernelOperator(AvgForwardX, 0.5, res0, res1, reg);
    fwy := NewKernelOperator(AvgForwardY, 0.5, res0, res1, reg);
    bwx := NewKernelOperator(AvgBackwardX, 0.5, res0, res1, reg);
    bwy := NewKernelOperator(AvgBackwardY, 0.5, res0, res1, reg);
  }

  /** The four shift operators of the constructor, at scale 1. */
  method NewShifts(res0: nat, res1: nat, reg: FftRegistry) returns (left: DataArray, right: DataArray, up: DataArray, down: DataArray)
    requires res0 > 0 && res1 > 0
    requires PlanReady(reg, res0, res1) && FftPlans.Conforms(reg.fft)
    modifies reg`main
    ensures fresh(left) && fresh(left.cart) && fresh(left.spec) && fresh(right) && fresh(right.cart) && fresh(right.spec)
    ensures fresh(up) && fresh(up.cart) && fresh(up.spec) && fresh(down) && fresh(down.cart) && fresh(down.spec)
    ensures HoldsKernel(left, ShiftLeft, 1.0, res0, res1, reg.fft)
    ensures HoldsKernel(right, ShiftRight, 1.0, res0, res1, reg.fft)
    ensures HoldsKernel(up, ShiftUp, 1.0, res0, res1, reg.fft)
    ensures HoldsKernel(down, ShiftDown, 1.0, res0, res1, reg.fft)
    ensures reg.main == Present(Count(old(reg.main)) + 4, PlanFor(res0, res1))
  {
    left := NewKernelOperator(ShiftLeft, 1.0, res0, res1, reg);
    right := NewKernelOperator(ShiftRight, 1.0, res0, res1, reg);
    up := NewKernelOperator(ShiftUp, 1.0, res0, res1, reg);
    down := NewKernelOperator(ShiftDown, 1.0, res0, res1, reg);
  }

  /** The central first and second differences, at scales 1/(2h) and 1/h^2. */
  method NewCentralDifferences(h0: real, h1: real, res0: nat, res1: nat, reg: FftRegistry)
    returns (cx: DataArray, cy: DataArray, c2x: DataArray, c2y: DataArray)
    requires h0 != 0.0 && h1 != 0.0 && res0 > 0 && res1 > 0
    requires PlanReady(reg, res0, res1) && FftPlans.Conforms(reg.fft)
    modifies reg`main
    ensures fresh(cx) && fresh(cx.cart) && fresh(cx.spec) && fresh(cy) && fresh(cy.cart) && fresh(cy.spec)
    ensures fresh(c2x) && fresh(c2x.cart) && fresh(c2x.spec) && fresh(c2y) && fresh(c2y.cart) && fresh(c2y.spec)
    ensures cx != cy && cx.Apart(cy) && c2x != c2y && c2x.Apart(c2y)
    ensures HoldsKernel(cx, DiffCentralX, CentralScale(h0), res0, res1, reg.fft)
    ensures HoldsKernel(cy, DiffCentralY, CentralScale(h1), res0, res1, reg.fft)
    ensures HoldsKernel(c2x, Diff2CentralX, SecondScale(h0), res0, res1, reg.fft)
    ensures HoldsKernel(c2y, Diff2CentralY, SecondScale(h1), res0, res1, reg.fft)
    ensures reg.main == Present(Count(old(reg.main)) + 4, PlanFor(res0, res1))
  {
    cx := NewKernelOperator(DiffCentralX, CentralScale(h0), res0, res1, reg);
    cy := NewKernelOperator(DiffCentralY, CentralScale(h1), res0, res1, reg);
    c2x := NewKernelOperator(Diff2CentralX, SecondScale(h0), res0, res1, reg);
    c2y := NewKernelOperator(Diff2CentralY, SecondScale(h1), res0, res1, reg);
  }

  /** The forward and backward differences, at scale 1/h. */
  method NewOneSidedDifferences(h0: real, h1: real, res0: nat, res1: nat, reg: FftRegistry)
    returns (fwx: DataArray, fwy: DataArray, bwx: DataArray, bwy: DataArray)
    requires h0 != 0.0 && h1 != 0.0 && res0 > 0 && res1 > 0
    requires PlanReady(reg, res0, res1) && FftPlans.Conforms(reg.fft)
    modifies reg`main
    ensures fresh(fwx) && fresh(fwx.cart) && fresh(fwx.spec) && fresh(fwy) && fresh(fwy.cart) && fresh(fwy.spec)
    ensures fresh(bwx) && fresh(bwx.cart) && fresh(bwx.spec) && fresh(bwy) && fresh(bwy.cart) && fresh(bwy.spec)
    ensures HoldsKernel(fwx, DiffForwardX, OneSidedScale(h0), res0, res1, reg.fft)
    ensures HoldsKernel(fwy, DiffForwardY, OneSidedScale(h1), res0, res1, reg.fft)
    ensures HoldsKernel(bwx, DiffBackwardX, OneSidedScale(h0), res0, res1, reg.fft)
    ensures HoldsKernel(bwy, DiffBackwardY, OneSidedScale(h1), res0, res1, reg.fft)
    ensures reg.main == Present(Count(old(reg.main)) + 4, PlanFor(res0, res1))
  {
    fwx := NewKernelOperator(DiffForwardX, OneSidedScale(h0), res0, res1, reg);
    fwy := NewKernelOperator(DiffForwardY, OneSidedScale(h1), res0, res1, reg);
    bwx := NewKernelOperator(DiffBackwardX, OneSidedScale(h0), res0, res1, reg);
    bwy := NewKernelOperator(DiffBackwardY, OneSidedScale(h1), res0, res1, reg);
  }

  /**
   * One axis of the spectral build: the first derivative as the spectral
   * multiplier pattern, the second as the first applied to itself.
   */
  method NewSpectralAxis(p: Pattern, m: Multiplier, res0: nat, res1: nat, reg: FftRegistry)
    returns (d: DataArray, d2: DataArray)
    requires res0 > 0 && res1 > 0 && Fits(p, SpecWidth(res0), res1)
    requires PlanReady(reg, res0, res1)
    modifies reg
    ensures fresh(d) && fresh(d.cart) && fresh(d.spec) && fresh(d2) && fresh(d2.cart) && fresh(d2.spec)
    ensures HoldsSpectrum(d, p, m, res0, res1) && Squares(d2, d)
    ensures reg.main == Present(Count(old(reg.main)) + 2, PlanFor(res0, res1))
    ensures reg.aliasing == old(reg.aliasing)
  {
    d := NewSpectralOperator(p, m, res0, res1, reg);
    SpecLengthIsCells(res0, res1);
    d2 := NewSquaredOperator(d, reg);
  }

  /**
   * The spectral central derivatives: the first derivatives as the
   * multipliers i k 2 pi / L, the second derivatives as their squares.
   */
  method NewSpectralCentral(L0: real, L1: real, res0: nat, res1: nat, reg: FftRegistry)
    returns (cx: DataArray, cy: DataArray, c2x: DataArray, c2y: DataArray)
    requires L0 != 0.0 && L1 != 0.0 && res0 > 0 && res1 > 0
    requires PlanReady(reg, res0, res1)
    modifies reg
    ensures fresh(cx) && fresh(cx.cart) && fresh(cx.spec) && fresh(cy) && fresh(cy.cart) && fresh(cy.spec)
    ensures fresh(c2x) && fresh(c2x.cart) && fresh(c2x.spec) && fresh(c2y) && fresh(c2y.cart) && fresh(c2y.spec)
    ensures cx != cy && cx.Apart(cy) && c2x != c2y && c2x.Apart(c2y)
    ensures HoldsSpectrum(cx, RealDiffXPattern(res0, res1), DiffXMultiplier(WaveScale(L0)), res0, res1)
    ensures HoldsSpectrum(cy, RealDiffYPattern(res0, res1), DiffYMultiplier(WaveScale(L1)), res0, res1)
    ensures Squares(c2x, cx) && Squares(c2y, cy)
    ensures reg.main == Present(Count(old(reg.main)) + 4, PlanFor(res0, res1))
    ensures reg.aliasing == old(reg.aliasing)
  {
    cx, c2x := NewSpectralAxis(RealDiffXPattern(res0, res1), DiffXMultiplier(WaveScale(L0)), res0, res1, reg);
    cy, c2y := NewSpectralAxis(RealDiffYPattern(res0, res1), DiffYMultiplier(WaveScale(L1)), res0, res1, reg);
  }

  /** The forward and backward differences of the spectral build: allocated, without data. */
  method NewUnsetDifferences(res0: nat, res1: nat, reg: FftRegistry)
    returns (fwx: DataArray, fwy: DataArray, bwx: DataArray, bwy: DataArray)
    requires res0 > 0 && res1 > 0
    modifies reg`main
    ensures fresh(fwx) && fresh(fwx.cart) && fresh(fwx.spec) && fresh(fwy) && fresh(fwy.cart) && fresh(fwy.spec)
    ensures fresh(bwx) && fresh(bwx.cart) && fresh(bwx.spec) && fresh(bwy) && fresh(bwy.cart) && fresh(bwy.spec)
    ensures Unset(fwx, res0, res1) && Unset(fwy, res0, res1) && Unset(bwx, res0, res1) && Unset(bwy, res0, res1)
    ensures reg.main == AfterAcquire(AfterAcquire(AfterAcquire(AfterAcquire(old(reg.main), PlanFor(res0, res1)),
      PlanFor(res0, res1)), PlanFor(res0, res1)), PlanFor(res0, res1))
  {
    fwx := new DataArray(res0, res1, reg);
    fwy := new DataArray(res0, res1, reg);
    bwx := new DataArray(res0, res1, reg);
    bwy := new DataArray(res0, res1, reg);
  }

  /** The averaging and the shift operators, the stencil fields both builds share. */
  method NewAveragesAndShifts(res0: nat, res1: nat, reg: FftRegistry)
    returns (afx: DataArray, afy: DataArray, abx: DataArray, aby: DataArray,
             left: DataArray, right: DataArray, up: DataArray, down: DataArray)
    requires res0 > 0 && res1 > 0
    requires PlanReady(reg, res0, res1) && FftPlans.Conforms(reg.fft)
    modifies reg`main
    ensures fresh(afx) && fresh(afy) && fresh(abx) && fresh(aby)
    ensures fresh(left) && fresh(right) && fresh(up) && fresh(down)
    ensures HoldsKernel(afx, AvgForwardX, 0.5, res0, res1, reg.fft)
    ensures HoldsKernel(afy, AvgForwardY, 0.5, res0, res1, reg.fft)
    ensures HoldsKernel(abx, AvgBackwardX, 0.5, res0, res1, reg.fft)
    ensures HoldsKernel(aby, AvgBackwardY, 0.5, res0, res1, reg.fft)
    ensures HoldsKernel(left, ShiftLeft, 1.0, res0, res1, reg.fft)
    ensures HoldsKernel(right, ShiftRight, 1.0, res0, res1, reg.fft)
    ensures HoldsKernel(up, ShiftUp, 1.0, res0, res1, reg.fft)
    ensures HoldsKernel(down, ShiftDown, 1.0, res0, res1, reg.fft)
    ensures reg.main == Present(Count(old(reg.main)) + 8, PlanFor(res0, res1))
  {
    afx, afy, abx, aby := NewAverages(res0, res1, reg);
    left, right, up, down := NewShifts(res0, res1, reg);
  }

  /** All eight derivative operators of the finite difference build. */
  method NewFiniteDifferences(h0: real, h1: real, res0: nat, res1: nat, reg: FftRegistry)
    returns (cx: DataArray, cy: DataArray, fwx: DataArray, fwy: DataArray,
             bwx: DataArray, bwy: DataArray, c2x: DataArray, c2y: DataArray)
    requires h0 != 0.0 && h1 != 0.0 && res0 > 0 && res1 > 0
    requires PlanReady(reg, res0, res1) && FftPlans.Conforms(reg.fft)
    modifies reg`main
    ensures fresh(cx) && fresh(cx.cart) && fresh(cx.spec) && fresh(cy) && fresh(cy.cart) && fresh(cy.spec)
    ensures fresh(fwx) && fresh(fwy) && fresh(bwx) && fresh(bwy)
    ensures fresh(c2x) && fresh(c2x.cart) && fresh(c2x.spec) && fresh(c2y) && fresh(c2y.cart) && fresh(c2y.spec)
    ensures cx != cy && cx.Apart(cy) && c2x != c2y && c2x.Apart(c2y)
    ensures HoldsKernel(cx, DiffCentralX, CentralScale(h0), res0, res1, reg.fft)
    ensures HoldsKernel(cy, DiffCentralY, CentralScale(h1), res0, res1, reg.fft)
    ensures HoldsKernel(fwx, DiffForwardX, OneSidedScale(h0), res0, res1, reg.fft)
    ensures HoldsKernel(fwy, DiffForwardY, OneSidedScale(h1), res0, res1, reg.fft)
    ensures HoldsKernel(bwx, DiffBackwardX, OneSidedScale(h0), res0, res1, reg.fft)
    ensures HoldsKernel(bwy, DiffBackwardY, OneSidedScale(h1), res0, res1, reg.fft)
    ensures HoldsKernel(c2x, Diff2CentralX, SecondScale(h0), res0, res1, reg.fft)
    ensures HoldsKernel(c2y, Diff2CentralY, SecondScale(h1), res0, res1, reg.fft)
    ensures reg.main == Present(Count(old(reg.main)) + 8, PlanFor(res0, res1))
  {
    cx, cy, c2x, c2y := NewCentralDifferences(h0, h1, res0, res1, reg);
    fwx, fwy, bwx, bwy := NewOneSidedDifferences(h0, h1, res0, res1, reg);
  }

  /**
   * All eight derivative operators of the spectral build: the central
   * ones as spectra, the forward and backward ones left without data.
   */
  method NewSpectralDerivatives(L0: real, L1: real, res0: nat, res1: nat, reg: FftRegistry)
    returns (cx: DataArray, cy: DataArray, fwx: DataArray, fwy: DataArray,
             bwx: DataArray, bwy: DataArray, c2x: DataArray, c2y: DataArray)
    requires L0 != 0.0 && L1 != 0.0 && res0 > 0 && res1 > 0
    requires PlanReady(reg, res0, res1) && FftPlans.Conforms(reg.fft)
    modifies reg
    ensures fresh(cx) && fresh(cx.cart) && fresh(cx.spec) && fresh(cy) && fresh(cy.cart) && fresh(cy.spec)
    ensures fresh(fwx) && fresh(fwy) && fresh(bwx) && fresh(bwy)
    ensures fresh(c2x) && fresh(c2x.cart) && fresh(c2x.spec) && fresh(c2y) && fresh(c2y.cart) && fresh(c2y.spec)
    ensures cx != cy && cx.Apart(cy) && c2x != c2y && c2x.Apart(c2y)
    ensures HoldsSpectrum(cx, RealDiffXPattern(res0, res1), DiffXMultiplier(WaveScale(L0)), res0, res1)
    ensures HoldsSpectrum(cy, RealDiffYPattern(res0, res1), DiffYMultiplier(WaveScale(L1)), res0, res1)
    ensures Squares(c2x, cx) && Squares(c2y, cy)
    ensures Unset(fwx, res0, res1) && Unset(fwy, res0, res1) && Unset(bwx, res0, res1) && Unset(bwy, res0, res1)
    ensures reg.main == Present(Count(old(reg.main)) + 8, PlanFor(res0, res1))
    ensures reg.aliasing == old(reg.aliasing)
  {
    cx, cy, c2x, c2y := NewSpectralCentral(L0, L1, res0, res1, reg);
    fwx, fwy, bwx, bwy := NewUnsetDifferences(res0, res1, reg);
  }

  /* ---------- the operator bank ---------- */

  /** A field of the resolution res0 x res1 holding operator data. */
  ghost predicate OfResolution(d: DataArray, res0: nat, res1: nat)
    reads d
  {
    d.Valid() && d.res0 == res0 && d.res1 == res1 && !d.aliasingScaled && !d.temporaryData
  }

  /** Every field of ds holds operator data of the resolution res0 x res1. */
  ghost predicate AllFit(ds: seq<DataArray>, res0: nat, res1: nat)
    reads ds
  {
    forall i :: 0 <= i < |ds| ==> OfResolution(ds[i], res0, res1)
  }

  /**
   * The operators both builds set up alike, the averages and the shifts,
   * stated as operator fields of the resolution; what each holds is stated
   * by NewAveragesAndShifts.
   */
  method SharedOperators(res0: nat, res1: nat, reg: FftRegistry)
    returns (afx: DataArray, afy: DataArray, abx: DataArray, aby: DataArray,
             left: DataArray, right: DataArray, up: DataArray, down: DataArray)
    requires res0 > 0 && res1 > 0
    requires PlanReady(reg, res0, res1) && FftPlans.Conforms(reg.fft)
    modifies reg`main
    ensures AllFit([afx, afy, abx, aby, left, right, up, down], res0, res1)
    ensures reg.main == Present(Count(old(reg.main)) + 8, PlanFor(res0, res1))
  {
    afx, afy, abx, aby, left, right, up, down := NewAveragesAndShifts(res0, res1, reg);
  }

  /**
   * The eight derivative operators of either build, stated as operator
   * fields of the resolution whose central first and second derivatives
   * hold their spectra, leaving the operators already built (shared) as
   * they were; what each holds is stated by NewSpectralDerivatives and
   * NewFiniteDifferences.
   */
  method DerivativeOperators(useSpectralDiffs: bool, L0: real, L1: real, res0: nat, res1: nat,
                             reg: FftRegistry, shared: seq<DataArray>)
    returns (cx: DataArray, cy: DataArray, fwx: DataArray, fwy: DataArray,
             bwx: DataArray, bwy: DataArray, c2x: DataArray, c2y: DataArray)
    requires L0 != 0.0 && L1 != 0.0 && res0 > 0 && res1 > 0
    requires PlanReady(reg, res0, res1) && FftPlans.Conforms(reg.fft)
    requires AllFit(shared, res0, res1)
    modifies reg
    ensures AllFit(shared, res0, res1)
    ensures cx != cy && cx.Apart(cy) && c2x != c2y && c2x.Apart(c2y)
    ensures cx.specValid && cy.specValid && c2x.specValid && c2y.specValid
    ensures AllFit([cx, cy, fwx, fwy, bwx, bwy, c2x, c2y], res0, res1)
    ensures reg.main == Present(Count(old(reg.main)) + 8, PlanFor(res0, res1))
    ensures reg.aliasing == old(reg.aliasing)
  {
    if useSpectralDiffs {
      cx, cy, fwx, fwy, bwx, bwy, c2x, c2y := NewSpectralDerivatives(L0, L1, res0, res1, reg);
    } else {
      cx, cy, fwx, fwy, bwx, bwy, c2x, c2y := NewFiniteDifferences(Spacing(L0, res0), Spacing(L1, res1), res0, res1, reg);
    }
  }

  /** The grid spacing domain / resolution along one axis. */
  function Spacing(L: real, n: nat): (h: real)
    requires n > 0
    ensures L != 0.0 ==> h != 0.0
  {
    L / (n as real)
  }

  /** The scale of the central first difference, 1 / (2 h). */
  function CentralScale(h: real): real
    requires h != 0.0
  {
    1.0 / (2.0 * h)
  }

  /** The scale of the one-sided first differences, 1 / h. */
  function OneSidedScale(h: real): real
    requires h != 0.0
  {
    1.0 / h
  }

  /** The scale of the central second difference, 1 / h^2. */
  function SecondScale(h: real): real
    requires h != 0.0
  {
    1.0 / (h * h)
  }

  /** Both operators applied to a, in turn: the two temporaries of x(a) op y(a). */
  method ApplyBoth(x: DataArray, y: DataArray, a: DataArray, reg: FftRegistry) returns (xa: DataArray, ya: DataArray)
    requires x.Valid() && y.Valid() && a.Valid() && x.specValid && y.specValid
    requires y.res0 == x.res0 && y.res1 == x.res1 && a.res0 == x.res0 && a.res1 == x.res1
    requires x != y && x.Apart(y) && (a == x || a.Apart(x)) && (a == y || a.Apart(y))
    requires a.CanRequestSpectral(reg)
    modifies x`specValid, x.spec, y`specValid, y.spec, a`specValid, a.spec, reg`main
    ensures x.specValid && y.specValid && x.spec[..] == old(x.spec[..]) && y.spec[..] == old(y.spec[..])
    ensures x.Apart(y) && a.SpectralRequested(reg.fft)
    ensures |old(a.SpectralValue(reg.fft))| == old(x.spec.Length) == old(y.spec.Length) && old(x.spec.Length) % 2 == 0
    ensures fresh(xa) && fresh(xa.cart) && fresh(xa.spec) && fresh(ya) && fresh(ya.cart) && fresh(ya.spec)
    ensures xa.Valid() && ya.Valid() && xa.specValid && ya.specValid && !xa.aliasingScaled && !ya.aliasingScaled
    ensures xa.res0 == ya.res0 == x.res0 && xa.res1 == ya.res1 == x.res1 && xa != ya && xa.Apart(ya)
    ensures xa.spec[..] == Cellwise(CMul, old(x.spec[..]), old(a.SpectralValue(reg.fft)))
    ensures ya.spec[..] == Cellwise(CMul, old(y.spec[..]), old(a.SpectralValue(reg.fft)))
    ensures reg.main == AfterAcquire(AfterAcquire(old(reg.main), PlanFor(x.res0, x.res1)), PlanFor(x.res0, x.res1))
  {
    SpecLengthIsCells(x.res0, x.res1);
    xa := x.ApplyOperator(a, reg);
    ya := y.ApplyOperator(a, reg);
  }

  /**
   * The end of x(a) op y(a): the two temporaries combined by op, added
   * when add holds and subtracted otherwise, then destroyed.
   */
  method CombineAndRelease(add: bool, xa: DataArray, ya: DataArray, reg: FftRegistry) returns (out: DataArray)
    requires xa.Valid() && ya.Valid() && xa.specValid && ya.specValid && !xa.aliasingScaled && !ya.aliasingScaled
    requires ya.res0 == xa.res0 && ya.res1 == xa.res1 && xa != ya && xa.Apart(ya)
    requires reg.main.Present? && reg.main.refCounter >= 2
    modifies xa, xa.spec, ya, ya.spec, reg
    ensures fresh(out) && fresh(out.cart) && fresh(out.spec) && out.Valid()
    ensures out.res0 == old(xa.res0) && out.res1 == old(xa.res1) && !out.aliasingScaled && out.temporaryData
    ensures out.specValid && !out.cartValid
    ensures out.spec[..] == Combine(add, old(xa.spec[..]), old(ya.spec[..]))
    ensures reg.main == Present(old(reg.main.refCounter) - 1, old(reg.main.plan))
    ensures reg.aliasing == old(reg.aliasing)
  {
    if add {
      out := xa.AddField(ya, reg);
    } else {
      out := xa.SubField(ya, reg);
    }
    xa.Destroy(reg);
    ya.Destroy(reg);
  }

  /** The spectra of two operators combined: added when add holds, subtracted otherwise. */
  function Combine(add: bool, s: seq<real>, t: seq<real>): (r: seq<real>)
    requires |s| == |t|
    ensures |r| == |s|
  {
    if add then Add(s, t) else Sub(s, t)
  }

  /**
   * x(a) + y(a), or x(a) - y(a), as one expression: both operators applied
   * to a, the two results combined, and the two temporaries destroyed at
   * its end.  The result is a applied to the combined operator, and holds
   * one reference on the main plan, as any new field does.
   */
  method ApplyPair(add: bool, x: DataArray, y: DataArray, a: DataArray, reg: FftRegistry) returns (out: DataArray)
    requires x.Valid() && y.Valid() && a.Valid() && x.specValid && y.specValid
    requires y.res0 == x.res0 && y.res1 == x.res1 && a.res0 == x.res0 && a.res1 == x.res1
    requires x != y && x.Apart(y) && (a == x || a.Apart(x)) && (a == y || a.Apart(y))
    requires a.CanRequestSpectral(reg) && Count(reg.main) >= 0
    modifies x`specValid, x.spec, y`specValid, y.spec, a`specValid, a.spec, reg
    ensures x.specValid && y.specValid && x.spec[..] == old(x.spec[..]) && y.spec[..] == old(y.spec[..])
    ensures x.Apart(y) && a.specValid && a.SpectralRequested(reg.fft)
    ensures |old(a.SpectralValue(reg.fft))| == old(x.spec.Length) == old(y.spec.Length) && old(x.spec.Length) % 2 == 0
    ensures fresh(out) && fresh(out.cart) && fresh(out.spec) && out.Valid()
    ensures out.res0 == x.res0 && out.res1 == x.res1 && !out.aliasingScaled && out.temporaryData
    ensures out.specValid && !out.cartValid
    ensures out.spec[..] == Cellwise(CMul, Combine(add, old(x.spec[..]), old(y.spec[..])), old(a.SpectralValue(reg.fft)))
    ensures reg.main == AfterAcquire(old(reg.main), PlanFor(x.res0, x.res1))
    ensures reg.aliasing == old(reg.aliasing)
  {
    ghost var s, t, u := x.spec[..], y.spec[..], a.SpectralValue(reg.fft);
    var xa, ya := ApplyBoth(x, y, a, reg);
    out := CombineAndRelease(add, xa, ya, reg);
    if add {
      CellwiseMulDistributesOverAdd(s, t, u);
    } else {
      CellwiseMulDistributesOverSub(s, t, u);
    }
  }

  /**
   * ApplyPair on two operators of a bank whose other
   * operators, the fields of shared and derivs, stay operator fields of
   * the resolution: a may be one of them, and only its flags and its
   * spectral buffer change.  The other central pair u, v keeps holding
   * its spectra in buffers of its own.
   */
  method BankApply(add: bool, shared: seq<DataArray>, derivs: seq<DataArray>,
                   x: DataArray, y: DataArray, u: DataArray, v: DataArray, a: DataArray, reg: FftRegistry)
    returns (out: DataArray)
    requires u.specValid && v.specValid && u != v && u.Apart(v)
    requires x.Valid() && y.Valid() && a.Valid() && x.specValid && y.specValid
    requires y.res0 == x.res0 && y.res1 == x.res1 && a.res0 == x.res0 && a.res1 == x.res1
    requires x != y && x.Apart(y) && (a == x || a.Apart(x)) && (a == y || a.Apart(y))
    requires a.CanRequestSpectral(reg) && Count(reg.main) >= 0
    requires AllFit(shared, x.res0, x.res1) && AllFit(derivs, x.res0, x.res1)
    modifies x`specValid, x.spec, y`specValid, y.spec, a`specValid, a.spec, reg
    ensures AllFit(shared, x.res0, x.res1) && AllFit(derivs, x.res0, x.res1)
    ensures u.specValid && v.specValid && u != v && u.Apart(v)
    ensures x.specValid && y.specValid && x.spec[..] == old(x.spec[..]) && y.spec[..] == old(y.spec[..])
    ensures x.Apart(y) && a.specValid && a.SpectralRequested(reg.fft)
    ensures |old(a.SpectralValue(reg.fft))| == old(x.spec.Length) == old(y.spec.Length) && old(x.spec.Length) % 2 == 0
    ensures fresh(out) && fresh(out.cart) && fresh(out.spec) && out.Valid()
    ensures out.res0 == x.res0 && out.res1 == x.res1 && !out.aliasingScaled && out.temporaryData
    ensures out.specValid && !out.cartValid
    ensures out.spec[..] == Cellwise(CMul, Combine(add, old(x.spec[..]), old(y.spec[..])), old(a.SpectralValue(reg.fft)))
    ensures reg.main == AfterAcquire(old(reg.main), PlanFor(x.res0, x.res1))
    ensures reg.aliasing == old(reg.aliasing)
  {
    out := ApplyPair(add, x, y, a, reg);
  }

  /**
   * Operators2D: sixteen operator fields of one resolution, built when the
   * bank is constructed and applied to a field by the complex product of
   * the two spectra.
   */
  class Operators2D {
    const res0: nat
    const res1: nat

    const diffCX: DataArray
    const diffCY: DataArray
    const diffFX: DataArray
    const diffFY: DataArray
    const diffBX: DataArray
    const diffBY: DataArray
    const diff2CX: DataArray
    const diff2CY: DataArray
    const avgFX: DataArray
    const avgFY: DataArray
    const avgBX: DataArray
    const avgBY: DataArray
    const shiftLeft: DataArray
    const shiftRight: DataArray
    const shiftUp: DataArray
    const shiftDown: DataArray

    /** The averaging and the shift operators, which both builds set up alike. */
    function Shared(): seq<DataArray>
    {
      [avgFX, avgFY, avgBX, avgBY, shiftLeft, shiftRight, shiftUp, shiftDown]
    }

    /** The derivative operators, which the two builds set up differently. */
    function Derivatives(): seq<DataArray>
    {
      [diffCX, diffCY, diffFX, diffFY, diffBX, diffBY, diff2CX, diff2CY]
    }

    /**
     * Every operator is a field of the bank's resolution; the central
     * first and second derivatives hold their spectra, and the two of each
     * pair share no buffer.
     */
    ghost predicate Valid()
      reads diffCX, diffCY, diffFX, diffFY, diffBX, diffBY, diff2CX, diff2CY
      reads avgFX, avgFY, avgBX, avgBY, shiftLeft, shiftRight, shiftUp, shiftDown
    {
      AllFit(Shared(), res0, res1) && AllFit(Derivatives(), res0, res1) &&
      diffCX.specValid && diffCY.specValid && diff2CX.specValid && diff2CY.specValid &&
      diffCX != diffCY && diffCX.Apart(diffCY) && diff2CX != diff2CY && diff2CX.Apart(diff2CY)
    }

    /** a can be handed to the operators x and y: a field of the bank's resolution sharing no buffer with them. */
    ghost predicate Operand(a: DataArray, x: DataArray, y: DataArray)
      reads a, x, y
    {
      a.Valid() && a.res0 == res0 && a.res1 == res1 &&
      (a == x || a.Apart(x)) && (a == y || a.Apart(y))
    }

    /** The central operators the bank applies are fields of its resolution. */
    lemma CentralMembers()
      requires AllFit(Derivatives(), res0, res1)
      ensures OfResolution(diffCX, res0, res1) && OfResolution(diffCY, res0, res1)
      ensures OfResolution(diff2CX, res0, res1) && OfResolution(diff2CY, res0, res1)
    {
      assert Derivatives()[0] == diffCX && Derivatives()[1] == diffCY;
      assert Derivatives()[6] == diff2CX && Derivatives()[7] == diff2CY;
    }

    /**
     * The constructor: h = L / res per axis; the averaging kernels at scale
     * 1/2; with spectral derivatives the central ones as the multipliers
     * i k 2 pi / L and their squares, the forward and backward ones left
     * without data; with finite differences the derivative stencils at
     * scales 1/(2h), 1/h and 1/h^2; the shift kernels at scale 1.  Every
     * member takes one reference on the main plan.
     */
    constructor (res0: nat, res1: nat, L0: real, L1: real, useSpectralDiffs: bool, reg: FftRegistry)
      requires res0 > 0 && res1 > 0 && L0 != 0.0 && L1 != 0.0
      requires PlanReady(reg, res0, res1) && FftPlans.Conforms(reg.fft)
      modifies reg
      ensures Valid() && this.res0 == res0 && this.res1 == res1
      ensures reg.main == Present(Count(old(reg.main)) + 16, PlanFor(res0, res1))
      ensures reg.aliasing == old(reg.aliasing)
    {
      var afx, afy, abx, aby, sl, sr, su, sd := SharedOperators(res0, res1, reg);
      var dcx, dcy, dfx, dfy, dbx, dby, d2x, d2y :=
        DerivativeOperators(useSpectralDiffs, L0, L1, res0, res1, reg, [afx, afy, abx, aby, sl, sr, su, sd]);
      this.res0, this.res1 := res0, res1;
      avgFX, avgFY, avgBX, avgBY := afx, afy, abx, aby;
      diffCX, diffCY, diffFX, diffFY, diffBX, diffBY, diff2CX, diff2CY := dcx, dcy, dfx, dfy, dbx, dby, d2x, d2y;
      shiftLeft, shiftRight, shiftUp, shiftDown := sl, sr, su, sd;
    }

    /** The spectrum laplace multiplies by: the sum of the second derivatives diff2_c_x + diff2_c_y. */
    ghost function LaplaceSpectrum(): (r: seq<real>)
      requires Valid()
      reads diffCX, diffCY, diffFX, diffFY, diffBX, diffBY, diff2CX, diff2CY
      reads avgFX, avgFY, avgBX, avgBY, shiftLeft, shiftRight, shiftUp, shiftDown
      reads diff2CX.spec, diff2CY.spec
      ensures |r| == SpecLength(res0, res1) && |r| % 2 == 0
    {
      CentralMembers();
      SpecLengthIsCells(res0, res1);
      Add(diff2CX.spec[..], diff2CY.spec[..])
    }

    /** The spectrum diff_dot multiplies by: the sum of the central first derivatives diff_c_x + diff_c_y. */
    ghost function DiffDotSpectrum(): (r: seq<real>)
      requires Valid()
      reads diffCX, diffCY, diffFX, diffFY, diffBX, diffBY, diff2CX, diff2CY
      reads avgFX, avgFY, avgBX, avgBY, shiftLeft, shiftRight, shiftUp, shiftDown
      reads diffCX.spec, diffCY.spec
      ensures |r| == SpecLength(res0, res1) && |r| % 2 == 0
    {
      CentralMembers();
      SpecLengthIsCells(res0, res1);
      Add(diffCX.spec[..], diffCY.spec[..])
    }

    /** The spectrum arakawa_jacobian multiplies by: diff_c_y - diff_c_x. */
    ghost function ArakawaSpectrum(): (r: seq<real>)
      requires Valid()
      reads diffCX, diffCY, diffFX, diffFY, diffBX, diffBY, diff2CX, diff2CY
      reads avgFX, avgFY, avgBX, avgBY, shiftLeft, shiftRight, shiftUp, shiftDown
      reads diffCX.spec, diffCY.spec
      ensures |r| == SpecLength(res0, res1) && |r| % 2 == 0
    {
      CentralMembers();
      SpecLengthIsCells(res0, res1);
      Sub(diffCY.spec[..], diffCX.spec[..])
    }

    /**
     * laplace: diff2_c_x(a) + diff2_c_y(a), which is a applied to the sum
     * of the second derivatives; the operators keep their spectra.
     */
    method Laplace(a: DataArray, reg: FftRegistry) returns (out: DataArray)
      requires Valid() && Operand(a, diff2CX, diff2CY) && a.CanRequestSpectral(reg) && Count(reg.main) >= 0
      modifies diff2CX`specValid, diff2CX.spec, diff2CY`specValid, diff2CY.spec, a`specValid, a.spec, reg
      ensures Valid() && LaplaceSpectrum() == old(LaplaceSpectrum()) && a.SpectralRequested(reg.fft)
      ensures fresh(out) && out.Valid() && out.res0 == res0 && out.res1 == res1
      ensures out.specValid && !out.cartValid && !out.aliasingScaled && out.temporaryData
      ensures out.spec[..] == Cellwise(CMul, old(LaplaceSpectrum()), old(a.SpectralValue(reg.fft)))
      ensures reg.main == AfterAcquire(old(reg.main), PlanFor(res0, res1)) && reg.aliasing == old(reg.aliasing)
    {
      CentralMembers();
      out := BankApply(true, Shared(), Derivatives(), diff2CX, diff2CY, diffCX, diffCY, a, reg);
    }

    /**
     * diff_dot: diff_c_x(a) + diff_c_y(a), which is a applied to the sum
     * of the central first derivatives; the operators keep their spectra.
     */
    method DiffDot(a: DataArray, reg: FftRegistry) returns (out: DataArray)
      requires Valid() && Operand(a, diffCX, diffCY) && a.CanRequestSpectral(reg) && Count(reg.main) >= 0
      modifies diffCX`specValid, diffCX.spec, diffCY`specValid, diffCY.spec, a`specValid, a.spec, reg
      ensures Valid() && DiffDotSpectrum() == old(DiffDotSpectrum()) && a.SpectralRequested(reg.fft)
      ensures fresh(out) && out.Valid() && out.res0 == res0 && out.res1 == res1
      ensures out.specValid && !out.cartValid && !out.aliasingScaled && out.temporaryData
      ensures out.spec[..] == Cellwise(CMul, old(DiffDotSpectrum()), old(a.SpectralValue(reg.fft)))
      ensures reg.main == AfterAcquire(old(reg.main), PlanFor(res0, res1)) && reg.aliasing == old(reg.aliasing)
    {
      CentralMembers();
      out := BankApply(true, Shared(), Derivatives(), diffCX, diffCY, diff2CX, diff2CY, a, reg);
    }

    /**
     * arakawa_jacobian: diff_c_y(a) - diff_c_x(a), which is a applied to
     * the difference of the central first derivatives; the second operand
     * b is accepted and not used.
     */
    method ArakawaJacobian(a: DataArray, b: DataArray, reg: FftRegistry) returns (out: DataArray)
      requires Valid() && Operand(a, diffCY, diffCX) && a.CanRequestSpectral(reg) && Count(reg.main) >= 0
      modifies diffCX`specValid, diffCX.spec, diffCY`specValid, diffCY.spec, a`specValid, a.spec, reg
      ensures Valid() && ArakawaSpectrum() == old(ArakawaSpectrum()) && a.SpectralRequested(reg.fft)
      ensures fresh(out) && out.Valid() && out.res0 == res0 && out.res1 == res1
      ensures out.specValid && !out.cartValid && !out.aliasingScaled && out.temporaryData
      ensures out.spec[..] == Cellwise(CMul, old(ArakawaSpectrum()), old(a.SpectralValue(reg.fft)))
      ensures reg.main == AfterAcquire(old(reg.main), PlanFor(res0, res1)) && reg.aliasing == old(reg.aliasing)
    {
      CentralMembers();
      out := BankApply(false, Shared(), Derivatives(), diffCY, diffCX, diff2CX, diff2CY, a, reg);
    }
  }
}
